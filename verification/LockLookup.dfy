/**
 * Finding the transaction of a deposit's lock in the vault's event log through a node that may
 * refuse any window of blocks.
 */
module LockLookup {
  import opened ByteWords
  import opened Wrappers
  import opened BigEndian
  import opened Hex

  /** One Lock event of the vault; `tokenId` is absent when the event does not decode. */
  datatype Log = Log(block: int, account: Bytes32, tokenId: Option<Bytes32>, tx: string)

  datatype RpcError = RateLimited | Refused | NotAWord

  datatype SearchResult = Found(tx: string) | Absent | Unknown

  const WINDOW: int := 10000
  const SMALLEST_WINDOW: int := 1000
  const BLOCKS_OF_SLACK: int := 300

  /** The log answers a filter on a window of blocks and, when given, the signer's account. */
  predicate Answers(l: Log, account: Option<Bytes32>, from: int, to: int) {
    from <= l.block <= to && (account.Some? ==> l.account == account.value)
  }

  predicate Matches(l: Log, account: Option<Bytes32>, tokenId: Bytes32, from: int, to: int) {
    Answers(l, account, from, to) && l.tokenId == Some(tokenId)
  }

  ghost predicate HasLock(chain: seq<Log>, account: Option<Bytes32>, tokenId: Bytes32, from: int, to: int) {
    exists l | l in chain :: Matches(l, account, tokenId, from, to)
  }

  ghost predicate IsTxOf(chain: seq<Log>, account: Option<Bytes32>, tokenId: Bytes32, from: int, to: int, tx: string) {
    exists l | l in chain :: Matches(l, account, tokenId, from, to) && l.tx == tx
  }

  /** Transaction hashes are not empty. */
  ghost predicate Hashed(chain: seq<Log>) {
    forall l | l in chain :: l.tx != ""
  }

  function Served(chain: seq<Log>, account: Option<Bytes32>, from: int, to: int): (logs: seq<Log>)
    ensures forall l :: l in logs <==> l in chain && Answers(l, account, from, to)
  {
    if chain == [] then []
    else (if Answers(chain[0], account, from, to) then [chain[0]] else []) + Served(chain[1..], account, from, to)
  }

  function Hit(logs: seq<Log>, tokenId: Bytes32): (hit: Option<Log>)
    ensures hit.Some? ==> hit.value in logs && hit.value.tokenId == Some(tokenId)
    ensures hit.None? ==> forall l | l in logs :: l.tokenId != Some(tokenId)
  {
    if logs == [] then None
    else if logs[0].tokenId == Some(tokenId) then Some(logs[0])
    else Hit(logs[1..], tokenId)
  }

  /** The node refuses, for any reason, or serves the window. */
  method GetLogs(chain: seq<Log>, account: Option<Bytes32>, from: int, to: int) returns (r: Result<seq<Log>, RpcError>)
    ensures r.Ok? ==> r.value == Served(chain, account, from, to)
  {
    var refused: Option<RpcError> := *;
    match refused {
      case Some(why) => r := Err(why);
      case None => r := Ok(Served(chain, account, from, to));
    }
  }

  /** A rate limit is retried once. */
  method ReadLogs(chain: seq<Log>, account: Option<Bytes32>, from: int, to: int) returns (r: Result<seq<Log>, RpcError>)
    ensures r.Ok? ==> r.value == Served(chain, account, from, to)
  {
    r := GetLogs(chain, account, from, to);
    if r == Err(RateLimited) {
      r := GetLogs(chain, account, from, to);
    }
  }

  /** Windows that follow each other without gap or overlap from `from` up to, not including, `end`,
      none larger than 10000 blocks. */
  ghost predicate Tiles(windows: seq<(int, int)>, from: int, end: int) {
    if windows == [] then from == end
    else
      var last := windows[|windows| - 1];
      && last.0 <= last.1 < last.0 + 10000
      && end == last.1 + 1
      && Tiles(windows[..|windows| - 1], from, last.0)
  }

  lemma TilesPush(windows: seq<(int, int)>, from: int, end: int, next: int)
    requires Tiles(windows, from, end) && end < next <= end + WINDOW
    ensures Tiles(windows + [(end, next - 1)], from, next)
  {
    assert (windows + [(end, next - 1)])[..|windows|] == windows;
  }

  /** Scans the blocks from `earliest` to `tip`. It throws only when a window of at most 1000
      blocks is refused; otherwise the windows it was served tile what it covered, and it misses
      no lock there. */
  method Scan(chain: seq<Log>, account: Option<Bytes32>, tokenId: Bytes32, earliest: int, tip: int)
    returns (r: Result<Option<string>, RpcError>, ghost windows: seq<(int, int)>, ghost refusedWindow: int)
    ensures r.Ok? && r.value.Some? ==> IsTxOf(chain, account, tokenId, earliest, tip, r.value.value)
    ensures r.Ok? && r.value.None? ==> !HasLock(chain, account, tokenId, earliest, tip)
    ensures r.Ok? && r.value.None? && earliest <= tip ==> Tiles(windows, earliest, tip + 1)
    ensures r.Err? ==> 0 < refusedWindow <= 1000
  {
    var window := WINDOW;
    var fromBlock := earliest;
    windows, refusedWindow := [], 0;
    while fromBlock <= tip
      invariant 0 < window <= WINDOW
      invariant earliest <= fromBlock && (fromBlock <= tip + 1 || fromBlock == earliest)
      invariant !HasLock(chain, account, tokenId, earliest, fromBlock - 1)
      invariant Tiles(windows, earliest, fromBlock)
      decreases tip - fromBlock, window
    {
      var toBlock := if fromBlock + window - 1 < tip then fromBlock + window - 1 else tip;
      var logs := ReadLogs(chain, account, fromBlock, toBlock);
      if logs.Err? {
        if window <= SMALLEST_WINDOW {
          refusedWindow := window;
          return Err(logs.error), windows, refusedWindow;
        }
        window := window / 2;
        continue;
      }
      var hit := Hit(logs.value, tokenId);
      if hit.Some? {
        assert hit.value in chain && Matches(hit.value, account, tokenId, earliest, tip);
        return Ok(Some(hit.value.tx)), windows, refusedWindow;
      }
      WindowClear(chain, account, tokenId, earliest, fromBlock, toBlock);
      TilesPush(windows, earliest, fromBlock, toBlock + 1);
      windows := windows + [(fromBlock, toBlock)];
      fromBlock := toBlock + 1;
    }
    r := Ok(None);
  }

  lemma WindowClear(chain: seq<Log>, account: Option<Bytes32>, tokenId: Bytes32, earliest: int, from: int, to: int)
    requires !HasLock(chain, account, tokenId, earliest, from - 1)
    requires Hit(Served(chain, account, from, to), tokenId).None?
    ensures !HasLock(chain, account, tokenId, earliest, to)
  {
  }

  function Later(a: int, b: int): int {
    if a > b then a else b
  }

  /** The signer's locks first, then anyone's, then further back, each span twice the last, down
      to the floor. A transaction comes back whenever a lock of the token id exists between the
      floor and the tip, and nothing only when none does, unless the search throws. */
  method Locate(chain: seq<Log>, tokenId: Bytes32, from: Bytes32, earliest: int, tip: int, floor: int)
    returns (r: Result<Option<string>, RpcError>)
    requires Hashed(chain) && floor <= earliest && (earliest <= tip || earliest == floor)
    ensures r.Ok? && r.value.Some? ==> IsTxOf(chain, None, tokenId, floor, tip, r.value.value)
    ensures r.Ok? && HasLock(chain, Some(from), tokenId, earliest, tip) ==>
              r.value.Some? && IsTxOf(chain, Some(from), tokenId, earliest, tip, r.value.value)
    ensures r.Ok? ==> (r.value.None? <==> !HasLock(chain, None, tokenId, floor, tip))
  {
    var signers, _, _ := Scan(chain, Some(from), tokenId, earliest, tip);
    if signers.Err? {
      return Err(signers.error);
    }
    if signers.value.Some? && signers.value.value != "" {
      return Ok(signers.value);
    }
    var anyones, _, _ := Scan(chain, None, tokenId, earliest, tip);
    if anyones.Err? {
      return Err(anyones.error);
    }
    if anyones.value.Some? && anyones.value.value != "" {
      return Ok(anyones.value);
    }
    var toBlock := earliest - 1;
    var span := tip - earliest + 1;
    while toBlock >= floor
      invariant floor - 1 <= toBlock < earliest && (span >= 1 || earliest == floor)
      invariant !HasLock(chain, None, tokenId, toBlock + 1, tip)
      decreases toBlock - floor + 1
    {
      var fromBlock := Later(toBlock - span + 1, floor);
      var back, _, _ := Scan(chain, None, tokenId, fromBlock, toBlock);
      if back.Err? {
        return Err(back.error);
      }
      if back.value.Some? && back.value.value != "" {
        return Ok(back.value);
      }
      RangeClear(chain, tokenId, fromBlock, toBlock, tip);
      toBlock := fromBlock - 1;
      span := span * 2;
    }
    r := Ok(None);
  }

  lemma RangeClear(chain: seq<Log>, tokenId: Bytes32, from: int, to: int, tip: int)
    requires !HasLock(chain, None, tokenId, from, to) && !HasLock(chain, None, tokenId, to + 1, tip)
    ensures !HasLock(chain, None, tokenId, from, tip)
  {
  }

  predicate IsWord(text: string) {
    |text| == 64 && forall i | 0 <= i < 64 :: IsHexDigit(text[i])
  }

  /** The vault's answer on a token id: one word of digits, whose number is not zero when it is locked. */
  function TokenIdUsed(word: Result<string, RpcError>): Result<bool, RpcError> {
    match word
    case Err(error) => Err(error)
    case Ok(text) => if IsWord(text) then Ok(HexValue(text) != 0) else Err(NotAWord)
  }

  /** A vault that answers with a 32-byte word says that the token id is locked exactly when the
      word is not zero; that is, when some digit of the answer is not. */
  lemma WordAnswers(word: Bytes32)
    ensures TokenIdUsed(Ok(HexText(word))) == Ok(word != ZERO32)
    ensures word != ZERO32 <==> exists i | 0 <= i < 64 :: HexText(word)[i] != '0'
  {
    hide HexValue, HexText, Value, Encode;
    HexReadsBack(word);
    HexZero(HexText(word));
    OnlyZero(word);
  }

  lemma OnlyZero(word: Bytes32)
    ensures Value(word) == 0 <==> word == ZERO32
  {
    hide Value, Encode, Pow256;
    ValueZeros(32, []);
    EncodeValue(word);
    EncodeValue(ZERO32);
    assert ZERO32 + [] == ZERO32;
  }

  /** The account has a transaction that is not mined yet. */
  function InFlight(pending: Result<nat, RpcError>, latest: Result<nat, RpcError>): Result<bool, RpcError> {
    if pending.Err? then Err(pending.error)
    else if latest.Err? then Err(latest.error)
    else Ok(pending.value > latest.value)
  }

  /** What the node answers to each question, in the order they are asked. */
  datatype Replies = Replies(
    used: Result<string, RpcError>, pending: Result<nat, RpcError>, latest: Result<nat, RpcError>,
    usedAgain: Result<string, RpcError>, tip: Result<int, RpcError>)
  {
    /** Counting what is pending, the account has more transactions than are mined. */
    predicate Moving() {
      pending.Ok? && latest.Ok? && pending.value > latest.value
    }

    /** It has none that is not mined. */
    predicate Quiet() {
      pending.Ok? && latest.Ok? && pending.value <= latest.value
    }

    /** The vault knows the token id, the first or the second time it is asked. */
    predicate Known() {
      Says(used, true) || (Says(used, false) && Quiet() && Says(usedAgain, true))
    }

    /** Twice it does not, with nothing of the account in flight between. */
    predicate TwiceUnknown() {
      Says(used, false) && Quiet() && Says(usedAgain, false)
    }

    /** A question asked before the search failed. */
    predicate Fails() {
      || NoWord(used)
      || (Says(used, false) && (pending.Err? || latest.Err? || (Quiet() && NoWord(usedAgain))))
      || (Known() && tip.Err?)
    }
  }

  /** The vault answers with one word, which is not zero if the token id is locked, and zero if not. */
  predicate Says(reply: Result<string, RpcError>, locked: bool) {
    reply.Ok? && IsWord(reply.value) && (locked <==> exists i | 0 <= i < 64 :: reply.value[i] != '0')
  }

  predicate NoWord(reply: Result<string, RpcError>) {
    reply.Err? || !IsWord(reply.value)
  }

  /** The answer counts exactly when it is one word, and says locked exactly when that is not zero. */
  lemma UsedIff(reply: Result<string, RpcError>)
    ensures TokenIdUsed(reply).Err? <==> NoWord(reply)
    ensures forall locked :: TokenIdUsed(reply) == Ok(locked) <==> Says(reply, locked)
  {
    hide HexValue;
    if reply.Ok? && IsWord(reply.value) {
      HexZero(reply.value);
    }
  }

  /** The vault is asked first, and again when nothing is pending; `since` is the age of the
      deposit in blocks. Absent means the vault twice did not know the token id while nothing of the
      account was in flight; found names a lock of the token id. */
  method FindLock(replies: Replies, chain: seq<Log>, tokenId: Bytes32, from: Bytes32, since: nat, floor: nat)
    returns (r: Result<SearchResult, RpcError>)
    requires Hashed(chain)
    ensures replies.Fails() ==> r.Err?
    ensures r == Ok(Absent) <==> replies.TwiceUnknown()
    ensures r.Ok? && r.value.Found? ==>
              replies.Known() && IsTxOf(chain, None, tokenId, floor, replies.tip.value, r.value.tx)
    ensures r.Ok? && replies.Known() && HasLock(chain, None, tokenId, floor, replies.tip.value) ==> r.value.Found?
    ensures Says(replies.used, false) && replies.Moving() ==> r == Ok(Unknown)
  {
    hide TokenIdUsed, HasLock, IsTxOf, Hashed, Says, NoWord;
    UsedIff(replies.used);
    UsedIff(replies.usedAgain);
    var locked :- TokenIdUsed(replies.used);
    if !locked {
      var moving :- InFlight(replies.pending, replies.latest);
      if moving {
        return Ok(Unknown);
      }
      var lockedAgain :- TokenIdUsed(replies.usedAgain);
      if !lockedAgain {
        return Ok(Absent);
      }
    }
    var tip :- replies.tip;
    var tx :- Locate(chain, tokenId, from, Later(tip - since - BLOCKS_OF_SLACK, floor), tip, floor);
    r := Ok(if tx.None? then Unknown else Found(tx.value));
  }
}
