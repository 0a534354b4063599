/** Results that may be absent or refused. */
module Wrappers {
  datatype Option<+T> = None | Some(value: T) {
    predicate IsFailure() {
      None?
    }

    function PropagateFailure<U>(): Option<U>
      requires None?
    {
      None
    }

    function Extract(): T
      requires Some?
    {
      value
    }
  }

  datatype Result<+T, +E> = Ok(value: T) | Err(error: E) {
    predicate IsFailure() {
      Err?
    }

    function PropagateFailure<U>(): Result<U, E>
      requires Err?
    {
      Err(error)
    }

    function Extract(): T
      requires Ok?
    {
      value
    }
  }

  ghost predicate Distinct<T>(s: seq<T>) {
    forall i, j | 0 <= i < j < |s| :: s[i] != s[j]
  }

  function SeqSet<T(==)>(s: seq<T>): set<T> {
    set x | x in s
  }

  function Reversed<T>(s: seq<T>): seq<T> {
    if s == [] then [] else [s[|s| - 1]] + Reversed(s[..|s| - 1])
  }

  lemma ReversedPush<T>(s: seq<T>, x: T)
    ensures Reversed(s + [x]) == [x] + Reversed(s)
  {
    assert (s + [x])[..|s|] == s;
  }

  lemma SeqSetPush<T>(s: seq<T>, x: T)
    ensures SeqSet(s + [x]) == SeqSet(s) + {x}
  {
  }

  lemma SeqSetNone<T>()
    ensures SeqSet<T>([]) == {}
  {
  }

  lemma SeqSetOne<T>(s: seq<T>)
    requires |s| == 1
    ensures SeqSet(s) == {s[0]}
  {
  }

  lemma SeqSetSplit<T>(s: seq<T>, t: seq<T>)
    ensures SeqSet(s + t) == SeqSet(s) + SeqSet(t)
  {
  }

  lemma InSeqSet<T>(s: seq<T>, i: nat)
    requires i < |s|
    ensures s[i] in SeqSet(s)
  {
  }

  lemma IndexIn<T>(s: seq<T>, x: T) returns (i: nat)
    requires x in SeqSet(s)
    ensures i < |s| && s[i] == x
  {
    i :| i < |s| && s[i] == x;
  }

  lemma DistinctLast<T>(init: seq<T>, last: T)
    requires Distinct(init) && last !in init
    ensures Distinct(init + [last])
  {
  }

  /** Losing the i-th element of a distinct sequence leaves a prefix only at the end. */
  lemma DistinctLoss<T>(s: seq<T>, i: nat)
    requires Distinct(s) && i < |s|
    ensures s[i] !in SeqSet(s[..i])
    ensures SeqSet(s) - {s[i]} == SeqSet(s[..i]) <==> i == |s| - 1
  {
    assert s == s[..i] + [s[i]] + s[i + 1..];
    if i + 1 < |s| {
      assert s[i + 1] in SeqSet(s) && s[i + 1] !in SeqSet(s[..i]);
    }
  }

  lemma {:induction false} DistinctSize<T>(s: seq<T>)
    requires Distinct(s)
    ensures |SeqSet(s)| == |s|
  {
    if s != [] {
      var rest, x := s[..|s| - 1], s[|s| - 1];
      assert s == rest + [x];
      SeqSetPush(rest, x);
      DistinctSize(rest);
    }
  }
}
