/**
 * The trimming middleware: the token count of a transcript, the three
 * sections it is cut into, and the loop that deletes middle messages until
 * the transcript fits the token budget.
 */
module Middleware {
  import opened Messages
  import opened TokenEstimate
  import opened ToolCallPairs

  /** `countTokens`: the per-message costs added left to right, starting from 0. */
  function CountTokens(messages: seq<Message>, cost: Message -> nat): (total: nat)
    ensures messages == [] ==> total == 0
    ensures forall i :: 0 <= i < |messages| ==> cost(messages[i]) <= total
  {
    if messages == [] then 0
    else
      var n := |messages| - 1;
      assert forall i :: 0 <= i < n ==> messages[..n][i] == messages[i];
      CountTokens(messages[..n], cost) + cost(messages[n])
  }

  /** The text the estimator reads: string content as it is, an array of parts through `serialize`. */
  function ContentText(serialize: seq<Part> -> string, content: Content): string {
    match content
    case Text(text) => text
    case Parts(parts) => serialize(parts)
  }

  /** The cost of one message: the user's `tokenCountFn` when one is supplied, otherwise the estimate of its text. */
  function MessageCost(tokenCountFn: Option<Message -> nat>, serialize: seq<Part> -> string, msg: Message): (c: nat)
    ensures tokenCountFn.Some? ==> c == tokenCountFn.value(msg)
    ensures tokenCountFn.None? ==> c >= 1
  {
    match tokenCountFn
    case Some(f) => f(msg)
    case None => Estimate(ContentText(serialize, msg.content))
  }

  /** The count is additive over concatenation. */
  lemma {:induction false} CountTokensAppend(a: seq<Message>, b: seq<Message>, cost: Message -> nat)
    ensures CountTokens(a + b, cost) == CountTokens(a, cost) + CountTokens(b, cost)
    decreases |b|
  {
    if b == [] {
      assert a + b == a;
    } else {
      var n := |b| - 1;
      assert (a + b)[..|a| + n] == a + b[..n];
      CountTokensAppend(a, b[..n], cost);
    }
  }

  /** With a `tokenCountFn`, the count is the sum of that function over the messages. */
  lemma {:induction false} CountTokensWithCallback(messages: seq<Message>, f: Message -> nat, serialize: seq<Part> -> string)
    ensures CountTokens(messages, m => MessageCost(Some(f), serialize, m)) == CountTokens(messages, f)
  {
    if messages != [] {
      CountTokensWithCallback(messages[..|messages| - 1], f, serialize);
    }
  }

  /** Without a `tokenCountFn`, every message costs at least one token, so the count is at least the number of messages. */
  lemma {:induction false} DefaultCountAtLeastLength(messages: seq<Message>, serialize: seq<Part> -> string)
    ensures CountTokens(messages, m => MessageCost(None, serialize, m)) >= |messages|
  {
    if messages != [] {
      DefaultCountAtLeastLength(messages[..|messages| - 1], serialize);
    }
  }

  /** Where `Array.prototype.slice` puts a bound `i` on an array of length `n`: negative bounds count from the end, and both are clamped to `[0, n]`. */
  function SliceBound(i: int, n: nat): (b: nat)
    ensures b <= n
  {
    if i < 0 then (if n + i < 0 then 0 else n + i)
    else if i > n then n
    else i
  }

  /** `s.slice(start, end)`: the elements from the start bound up to the end bound, or nothing when the bounds cross. */
  function Slice<T>(s: seq<T>, start: int, end: int): (r: seq<T>)
    ensures |r| <= |s|
    ensures 0 <= start <= end <= |s| ==> r == s[start..end]
  {
    var lo := SliceBound(start, |s|);
    var hi := SliceBound(end, |s|);
    if lo < hi then s[lo..hi] else []
  }

  /** The three parts of a transcript over budget. */
  datatype Sections = Sections(pinnedStart: seq<Message>, middle: seq<Message>, pinnedEnd: seq<Message>)

  /** `pinnedStart`, `middle` and `pinnedEnd` exactly as the three `slice` calls take them. */
  function Partition(messages: seq<Message>, pinnedStartCount: int, pinnedEndCount: int): Sections {
    Sections(
      Slice(messages, 0, pinnedStartCount),
      Slice(messages, pinnedStartCount, |messages| - pinnedEndCount),
      Slice(messages, -pinnedEndCount, |messages|))
  }

  /** The transcript assembled around a (trimmed) middle. */
  function Joined(sec: Sections, middle: seq<Message>): seq<Message> {
    sec.pinnedStart + middle + sec.pinnedEnd
  }

  /**
   * With pin counts that fit the transcript (and a positive end count), the
   * sections are its first `pinnedStartCount` messages, the messages between,
   * and its last `pinnedEndCount` messages, and they join back to the transcript.
   */
  lemma PartitionWellFormed(messages: seq<Message>, pinnedStartCount: int, pinnedEndCount: int)
    requires 0 <= pinnedStartCount && 1 <= pinnedEndCount && pinnedStartCount + pinnedEndCount <= |messages|
    ensures Partition(messages, pinnedStartCount, pinnedEndCount) ==
      Sections(messages[..pinnedStartCount],
               messages[pinnedStartCount..|messages| - pinnedEndCount],
               messages[|messages| - pinnedEndCount..])
    ensures Joined(Partition(messages, pinnedStartCount, pinnedEndCount),
                   messages[pinnedStartCount..|messages| - pinnedEndCount]) == messages
  {
    var n := |messages|;
    assert messages[..pinnedStartCount] + messages[pinnedStartCount..n - pinnedEndCount] + messages[n - pinnedEndCount..] == messages;
  }

  /** A deletion of `k` consecutive elements at position `p`. */
  function DropAt<T>(s: seq<T>, p: nat, k: nat): seq<T>
    requires p + k <= |s|
  {
    s[..p] + s[p + k..]
  }

  /** `findIndex` of the first position below `n` that is not in `prot`, or -1 when there is none. */
  function FirstUnprotected(n: nat, prot: set<nat>): (idx: int)
    ensures -1 <= idx < n
    ensures idx == -1 <==> forall j :: 0 <= j < n ==> j in prot
    ensures 0 <= idx ==> idx !in prot && forall j :: 0 <= j < idx ==> j in prot
  {
    FirstUnprotectedFrom(0, n, prot)
  }

  function FirstUnprotectedFrom(i: nat, n: nat, prot: set<nat>): (idx: int)
    requires i <= n
    requires forall j :: 0 <= j < i ==> j in prot
    ensures -1 <= idx < n
    ensures idx == -1 <==> forall j :: 0 <= j < n ==> j in prot
    ensures 0 <= idx ==> idx !in prot && forall j :: 0 <= j < idx ==> j in prot
    decreases n - i
  {
    if i == n then -1
    else if i !in prot then i
    else FirstUnprotectedFrom(i + 1, n, prot)
  }

  /** The `findIndex` search of the trimming loop. */
  method FindUnprotected(current: seq<Message>, protectedIndexes: set<nat>) returns (idx: int)
    ensures idx == FirstUnprotected(|current|, protectedIndexes)
  {
    idx := 0;
    while idx < |current| && idx in protectedIndexes
      invariant 0 <= idx <= |current|
      invariant forall j :: 0 <= j < idx ==> j in protectedIndexes
    {
      idx := idx + 1;
    }
    if idx == |current| {
      idx := -1;
    }
  }

  /**
   * The trimming loop on values: while the joined transcript is over budget,
   * delete the first current position that is not in `prot`, and stop when
   * there is none.
   */
  function Trimmed(sec: Sections, current: seq<Message>, prot: set<nat>, maxInputTokens: int, cost: Message -> nat)
    : (r: seq<Message>)
    ensures |r| <= |current|
    decreases |current|
  {
    if CountTokens(Joined(sec, current), cost) <= maxInputTokens then current
    else
      var idx := FirstUnprotected(|current|, prot);
      if idx == -1 then current
      else Trimmed(sec, current[..idx] + current[idx + 1..], prot, maxInputTokens, cost)
  }

  /** What the compression returns: the prompt itself when it fits, otherwise the pinned sections around the trimmed middle. */
  function Compressed(messages: seq<Message>, maxInputTokens: int, pinnedStartCount: int, pinnedEndCount: int,
                      cost: Message -> nat): seq<Message>
  {
    if CountTokens(messages, cost) <= maxInputTokens then messages
    else
      var sec := Partition(messages, pinnedStartCount, pinnedEndCount);
      Joined(sec, Trimmed(sec, sec.middle, ProtectedIndexes(sec.middle), maxInputTokens, cost))
  }

  /**
   * The compression in `transformParams`: slice, index the tool exchanges of
   * the middle, then `splice` out one message at a time from a copy of the
   * middle until the transcript fits or nothing unprotected is left.
   */
  method Compress(messages: seq<Message>, maxInputTokens: int, pinnedStartCount: int, pinnedEndCount: int,
                  cost: Message -> nat)
    returns (result: seq<Message>)
    ensures result == Compressed(messages, maxInputTokens, pinnedStartCount, pinnedEndCount, cost)
    ensures CountTokens(messages, cost) <= maxInputTokens ==> result == messages
  {
    if CountTokens(messages, cost) <= maxInputTokens {
      return messages;
    }
    var pinnedStart := Slice(messages, 0, pinnedStartCount);
    var pinnedEnd := Slice(messages, -pinnedEndCount, |messages|);
    var middle := Slice(messages, pinnedStartCount, |messages| - pinnedEndCount);
    ghost var sec := Sections(pinnedStart, middle, pinnedEnd);
    assert sec == Partition(messages, pinnedStartCount, pinnedEndCount);

    var protectedIndexes := GroupToolCallPairs(middle);
    var compressedMiddle := middle;
    while CountTokens(pinnedStart + compressedMiddle + pinnedEnd, cost) > maxInputTokens
      invariant Trimmed(sec, compressedMiddle, protectedIndexes, maxInputTokens, cost)
        == Trimmed(sec, middle, protectedIndexes, maxInputTokens, cost)
      decreases |compressedMiddle|
    {
      assert CountTokens(Joined(sec, compressedMiddle), cost) > maxInputTokens;
      var idxToRemove := FindUnprotected(compressedMiddle, protectedIndexes);
      if idxToRemove == -1 {
        break;
      }
      ghost var before := compressedMiddle;
      compressedMiddle := compressedMiddle[..idxToRemove] + compressedMiddle[idxToRemove + 1..];
      assert Trimmed(sec, before, protectedIndexes, maxInputTokens, cost)
        == Trimmed(sec, compressedMiddle, protectedIndexes, maxInputTokens, cost);
    }
    result := pinnedStart + compressedMiddle + pinnedEnd;
  }

  /** The position every deletion happens at: the least one not in `prot`, or `n` when all below `n` are. */
  function FreePosition(prot: set<nat>, n: nat): (p: nat)
    ensures p <= n
    ensures forall j :: 0 <= j < p ==> j in prot
    ensures p < n ==> p !in prot
  {
    var idx := FirstUnprotected(n, prot);
    if idx == -1 then n else idx
  }

  /**
   * The protected set is never re-indexed: on any shorter current middle,
   * `findIndex` finds the same free position, or nothing once the middle
   * has shrunk to it.
   */
  lemma FirstUnprotectedOfShorter(prot: set<nat>, n: nat, m: nat)
    requires m <= n
    ensures FirstUnprotected(m, prot) == if FreePosition(prot, n) < m then FreePosition(prot, n) else -1
  {
  }

  /** Deleting `k + 1` at `p` is deleting `k` at `p` and then the element now at `p`. */
  lemma DropAtStep<T>(s: seq<T>, p: nat, k: nat)
    requires p + k < |s|
    ensures DropAt(s, p, k)[..p] + DropAt(s, p, k)[p + 1..] == DropAt(s, p, k + 1)
  {
    var d := DropAt(s, p, k);
    assert d[..p] == s[..p];
    assert d[p + 1..] == s[p + k + 1..];
  }

  /**
   * Going from `k` to `j` deletions at `p` is a run of the loop: each
   * deletion was made while the joined transcript was over budget, and
   * after the last one it fits, or nothing is left after `p`.
   */
  predicate DeletionRun(sec: Sections, maxInputTokens: int, cost: Message -> nat, p: nat, k: nat, j: nat) {
    k <= j && p + j <= |sec.middle|
    && (CountTokens(Joined(sec, DropAt(sec.middle, p, j)), cost) <= maxInputTokens || p + j == |sec.middle|)
    && forall i :: k <= i < j ==> CountTokens(Joined(sec, DropAt(sec.middle, p, i)), cost) > maxInputTokens
  }

  /** Over budget with something left after `p`, the loop deletes at `p`. */
  lemma TrimmedStep(sec: Sections, prot: set<nat>, maxInputTokens: int, cost: Message -> nat, p: nat, k: nat)
    requires p == FreePosition(prot, |sec.middle|)
    requires p + k < |sec.middle|
    requires CountTokens(Joined(sec, DropAt(sec.middle, p, k)), cost) > maxInputTokens
    ensures Trimmed(sec, DropAt(sec.middle, p, k), prot, maxInputTokens, cost)
      == Trimmed(sec, DropAt(sec.middle, p, k + 1), prot, maxInputTokens, cost)
  {
    var current := DropAt(sec.middle, p, k);
    assert |current| == |sec.middle| - k;
    FirstUnprotectedOfShorter(prot, |sec.middle|, |current|);
    assert FirstUnprotected(|current|, prot) == p;
    DropAtStep(sec.middle, p, k);
    assert current[..p] + current[p + 1..] == DropAt(sec.middle, p, k + 1);
  }

  /** A run from `k + 1` that starts over budget at `k` is a run from `k`. */
  lemma DeletionRunExtend(sec: Sections, maxInputTokens: int, cost: Message -> nat, p: nat, k: nat, j: nat)
    requires DeletionRun(sec, maxInputTokens, cost, p, k + 1, j)
    requires CountTokens(Joined(sec, DropAt(sec.middle, p, k)), cost) > maxInputTokens
    ensures DeletionRun(sec, maxInputTokens, cost, p, k, j)
  {
  }

  /**
   * Every deletion happens at the same position `p`, the first one not in
   * `prot`: from `k` deletions the loop goes on to some `j` deletions at `p`,
   * made as a `DeletionRun`.
   */
  lemma {:induction false} TrimmedDeletesAtFreePosition(sec: Sections, prot: set<nat>, maxInputTokens: int,
                                                        cost: Message -> nat, p: nat, k: nat)
    requires p == FreePosition(prot, |sec.middle|)
    requires p + k <= |sec.middle|
    ensures exists j: nat ::
              DeletionRun(sec, maxInputTokens, cost, p, k, j)
              && Trimmed(sec, DropAt(sec.middle, p, k), prot, maxInputTokens, cost) == DropAt(sec.middle, p, j)
    decreases |sec.middle| - p - k
  {
    var current := DropAt(sec.middle, p, k);
    if CountTokens(Joined(sec, current), cost) <= maxInputTokens {
      assert DeletionRun(sec, maxInputTokens, cost, p, k, k);
    } else if p + k == |sec.middle| {
      FirstUnprotectedOfShorter(prot, |sec.middle|, |current|);
      assert DeletionRun(sec, maxInputTokens, cost, p, k, k);
    } else {
      TrimmedStep(sec, prot, maxInputTokens, cost, p, k);
      TrimmedDeletesAtFreePosition(sec, prot, maxInputTokens, cost, p, k + 1);
      var j: nat :| DeletionRun(sec, maxInputTokens, cost, p, k + 1, j)
        && Trimmed(sec, DropAt(sec.middle, p, k + 1), prot, maxInputTokens, cost) == DropAt(sec.middle, p, j);
      DeletionRunExtend(sec, maxInputTokens, cost, p, k, j);
    }
  }

  /**
   * On exit the transcript fits the budget, or every position of the
   * remaining middle is protected.
   */
  lemma {:induction false} TrimmedExit(sec: Sections, current: seq<Message>, prot: set<nat>, maxInputTokens: int,
                                       cost: Message -> nat)
    ensures var r := Trimmed(sec, current, prot, maxInputTokens, cost);
      CountTokens(Joined(sec, r), cost) <= maxInputTokens || forall j :: 0 <= j < |r| ==> j in prot
    decreases |current|
  {
    if CountTokens(Joined(sec, current), cost) > maxInputTokens {
      var idx := FirstUnprotected(|current|, prot);
      if idx != -1 {
        TrimmedExit(sec, current[..idx] + current[idx + 1..], prot, maxInputTokens, cost);
      }
    }
  }

  /**
   * Over budget, the result is the pinned sections around the middle with
   * `j` messages deleted at the free position `p`: the first `p` middle
   * messages always survive, every deletion was made while over budget, at
   * most `|middle| - p` are made, and the loop stopped within budget or
   * with nothing unprotected left.
   */
  lemma CompressedShape(messages: seq<Message>, maxInputTokens: int, pinnedStartCount: int, pinnedEndCount: int,
                        cost: Message -> nat)
    requires CountTokens(messages, cost) > maxInputTokens
    ensures var sec := Partition(messages, pinnedStartCount, pinnedEndCount);
      var p := FreePosition(ProtectedIndexes(sec.middle), |sec.middle|);
      exists j: nat :: DeletionRun(sec, maxInputTokens, cost, p, 0, j)
        && Compressed(messages, maxInputTokens, pinnedStartCount, pinnedEndCount, cost)
           == Joined(sec, DropAt(sec.middle, p, j))
  {
    var sec := Partition(messages, pinnedStartCount, pinnedEndCount);
    var prot := ProtectedIndexes(sec.middle);
    var p := FreePosition(prot, |sec.middle|);
    assert DropAt(sec.middle, p, 0) == sec.middle;
    TrimmedDeletesAtFreePosition(sec, prot, maxInputTokens, cost, p, 0);
    var j: nat :| DeletionRun(sec, maxInputTokens, cost, p, 0, j)
      && Trimmed(sec, sec.middle, prot, maxInputTokens, cost) == DropAt(sec.middle, p, j);
  }

  /**
   * With pin counts that fit, the first `pinnedStartCount` and the last
   * `pinnedEndCount` messages come out unchanged and in order, and the
   * result is no longer than the prompt.
   */
  lemma CompressedKeepsPins(messages: seq<Message>, maxInputTokens: int, pinnedStartCount: int, pinnedEndCount: int,
                            cost: Message -> nat)
    requires 0 <= pinnedStartCount && 1 <= pinnedEndCount && pinnedStartCount + pinnedEndCount <= |messages|
    ensures var result := Compressed(messages, maxInputTokens, pinnedStartCount, pinnedEndCount, cost);
      pinnedStartCount + pinnedEndCount <= |result| <= |messages|
      && result[..pinnedStartCount] == messages[..pinnedStartCount]
      && result[|result| - pinnedEndCount..] == messages[|messages| - pinnedEndCount..]
      && CountTokens(result, cost) <= CountTokens(messages, cost)
  {
    if CountTokens(messages, cost) > maxInputTokens {
      PartitionWellFormed(messages, pinnedStartCount, pinnedEndCount);
      var sec := Partition(messages, pinnedStartCount, pinnedEndCount);
      JoinedKeepsSections(sec, Trimmed(sec, sec.middle, ProtectedIndexes(sec.middle), maxInputTokens, cost));
      CompressedCostNoMore(messages, maxInputTokens, pinnedStartCount, pinnedEndCount, cost);
    }
  }

  /** With pins that fit, the compressed transcript is a subsequence of the prompt, so it costs no more. */
  lemma CompressedCostNoMore(messages: seq<Message>, maxInputTokens: int, pinnedStartCount: int, pinnedEndCount: int,
                             cost: Message -> nat)
    requires 0 <= pinnedStartCount && 1 <= pinnedEndCount && pinnedStartCount + pinnedEndCount <= |messages|
    requires CountTokens(messages, cost) > maxInputTokens
    ensures CountTokens(Compressed(messages, maxInputTokens, pinnedStartCount, pinnedEndCount, cost), cost)
      <= CountTokens(messages, cost)
  {
    var sec := Partition(messages, pinnedStartCount, pinnedEndCount);
    var p := FreePosition(ProtectedIndexes(sec.middle), |sec.middle|);
    CompressedShape(messages, maxInputTokens, pinnedStartCount, pinnedEndCount, cost);
    var j: nat :| DeletionRun(sec, maxInputTokens, cost, p, 0, j)
      && Compressed(messages, maxInputTokens, pinnedStartCount, pinnedEndCount, cost)
         == Joined(sec, DropAt(sec.middle, p, j));
    PartitionWellFormed(messages, pinnedStartCount, pinnedEndCount);
    JoinedCost(sec, DropAt(sec.middle, p, j), cost);
    JoinedCost(sec, sec.middle, cost);
    DropAtCostNoMore(sec.middle, p, j, cost);
  }

  /** The joined transcript costs its three sections. */
  lemma JoinedCost(sec: Sections, middle: seq<Message>, cost: Message -> nat)
    ensures CountTokens(Joined(sec, middle), cost)
      == CountTokens(sec.pinnedStart, cost) + CountTokens(middle, cost) + CountTokens(sec.pinnedEnd, cost)
  {
    CountTokensAppend(sec.pinnedStart + middle, sec.pinnedEnd, cost);
    CountTokensAppend(sec.pinnedStart, middle, cost);
  }

  /** Deleting messages never raises the count. */
  lemma DropAtCostNoMore(s: seq<Message>, p: nat, k: nat, cost: Message -> nat)
    requires p + k <= |s|
    ensures CountTokens(DropAt(s, p, k), cost) <= CountTokens(s, cost)
  {
    var before, dropped, after := s[..p], s[p..p + k], s[p + k..];
    assert s == before + dropped + after;
    assert DropAt(s, p, k) == before + after;
    CountTokensAppend(before + dropped, after, cost);
    CountTokensAppend(before, dropped, cost);
    CountTokensAppend(before, after, cost);
  }

  /** The pinned sections sit unchanged at both ends of the joined transcript. */
  lemma JoinedKeepsSections(sec: Sections, middle: seq<Message>)
    ensures |Joined(sec, middle)| == |sec.pinnedStart| + |middle| + |sec.pinnedEnd|
    ensures Joined(sec, middle)[..|sec.pinnedStart|] == sec.pinnedStart
    ensures Joined(sec, middle)[|Joined(sec, middle)| - |sec.pinnedEnd|..] == sec.pinnedEnd
  {
  }

  /** The kind of model call `transformParams` is invoked for. */
  datatype CallType = Generate | Stream | OtherCall

  /** A prompt: an array of messages, or anything else. */
  datatype Prompt = MessageArray(messages: seq<Message>) | OtherPrompt

  /** The call parameters: the prompt, and every other setting, passed through untouched. */
  datatype Params<S> = Params(prompt: Prompt, settings: S)

  /**
   * `transformParams`: generate and stream calls with an array prompt get
   * the compressed prompt, costed by `tokenCountFn` or the estimator; every
   * other call is passed through.
   */
  method TransformParams<S>(callType: CallType, params: Params<S>, maxInputTokens: int,
                            pinnedStartCount: int, pinnedEndCount: int,
                            tokenCountFn: Option<Message -> nat>, serialize: seq<Part> -> string)
    returns (result: Params<S>)
    ensures result.settings == params.settings
    ensures !((callType == Generate || callType == Stream) && params.prompt.MessageArray?) ==> result == params
    ensures (callType == Generate || callType == Stream) && params.prompt.MessageArray? ==>
      result.prompt == MessageArray(Compressed(params.prompt.messages, maxInputTokens, pinnedStartCount, pinnedEndCount,
                                               m => MessageCost(tokenCountFn, serialize, m)))
    ensures params.prompt.MessageArray?
      && CountTokens(params.prompt.messages, m => MessageCost(tokenCountFn, serialize, m)) <= maxInputTokens
      ==> result == params
  {
    if (callType == Generate || callType == Stream) && params.prompt.MessageArray? {
      var messages := params.prompt.messages;
      var cost := m => MessageCost(tokenCountFn, serialize, m);
      if CountTokens(messages, cost) <= maxInputTokens {
        return params;
      }
      var compressed := Compress(messages, maxInputTokens, pinnedStartCount, pinnedEndCount, cost);
      return params.(prompt := MessageArray(compressed));
    }
    return params;
  }
}
