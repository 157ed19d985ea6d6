/**
 * The trimming as evidently intended, beside the inputs that show where the
 * code as written departs from it: protected tool exchanges get deleted,
 * and a zero or oversized end pin repeats messages.
 */
module IntendedTrimming {
  import opened Messages
  import opened ToolCallPairs
  import opened ToolCallPairsExamples
  import opened Middleware

  // ---- The code as written

  /** A `tokenCountFn` that charges one token per message. */
  function One(msg: Message): nat { 1 }

  /** With that `tokenCountFn`, the count is the number of messages. */
  lemma {:induction false} UnitCount(messages: seq<Message>)
    ensures CountTokens(messages, One) == |messages|
  {
    if messages != [] {
      UnitCount(messages[..|messages| - 1]);
    }
  }

  lemma DeletionInput(messages: seq<Message>)
    requires messages == [Said(User, "before"), Call("abc", "getData"), Result("abc", "getData"),
                          Said(Assistant, "after"), Said(User, "final")]
    ensures CountTokens(messages, One) == 5
    ensures Partition(messages, 0, 1) == Sections([], messages[..4], [Said(User, "final")])
    ensures messages[..4] == [Said(User, "before"), Call("abc", "getData"), Result("abc", "getData"),
                              Said(Assistant, "after")]
  {
    UnitCount(messages);
    PartitionWellFormed(messages, 0, 1);
  }

  lemma DeletionRunOnPair(sec: Sections, prot: set<nat>)
    requires sec == Sections([], [Said(User, "before"), Call("abc", "getData"), Result("abc", "getData"),
                                  Said(Assistant, "after")], [Said(User, "final")])
    requires prot == {1, 2}
    ensures Trimmed(sec, sec.middle, prot, 3, One) == [Result("abc", "getData"), Said(Assistant, "after")]
  {
    var once := sec.middle[..0] + sec.middle[1..];
    var twice := once[..0] + once[1..];
    UnitCount(Joined(sec, sec.middle));
    UnitCount(Joined(sec, once));
    UnitCount(Joined(sec, twice));
    assert FirstUnprotected(4, prot) == 0;
    assert FirstUnprotected(3, prot) == 0;
    assert Trimmed(sec, once, prot, 3, One) == twice;
  }

  /**
   * The protected set holds positions of the original middle, but is
   * tested against positions of the shrinking copy: once `before` is gone,
   * the protected tool call sits at position 0, which is not protected, and
   * is deleted, leaving its result dangling.
   */
  lemma ProtectedCallDeleted(messages: seq<Message>)
    requires messages == [Said(User, "before"), Call("abc", "getData"), Result("abc", "getData"),
                          Said(Assistant, "after"), Said(User, "final")]
    ensures 1 in ProtectedIndexes(Partition(messages, 0, 1).middle)
    ensures Compressed(messages, 3, 0, 1, One)
      == [Result("abc", "getData"), Said(Assistant, "after"), Said(User, "final")]
  {
    DeletionInput(messages);
    var sec := Partition(messages, 0, 1);
    ProtectsAdjacentPair(sec.middle);
    DeletionRunOnPair(sec, ProtectedIndexes(sec.middle));
  }

  /** An end pin of 0 takes `slice(-0)`, the whole transcript, as the pinned end. */
  lemma ZeroEndPinsEverything(messages: seq<Message>, pinnedStartCount: int)
    requires 0 <= pinnedStartCount <= |messages|
    ensures var sec := Partition(messages, pinnedStartCount, 0);
      sec.pinnedEnd == messages && Joined(sec, sec.middle) == messages + messages
  {
    var sec := Partition(messages, pinnedStartCount, 0);
    assert sec.pinnedStart + sec.middle == messages;
  }

  /**
   * So with an end pin of 0, a prompt over budget can never be brought
   * within budget: the output still holds the whole prompt after its
   * first messages.
   */
  lemma ZeroEndNeverFits(messages: seq<Message>, maxInputTokens: int, pinnedStartCount: int, cost: Message -> nat)
    requires 0 <= pinnedStartCount <= |messages|
    requires CountTokens(messages, cost) > maxInputTokens
    ensures var result := Compressed(messages, maxInputTokens, pinnedStartCount, 0, cost);
      |result| >= |messages| && result[|result| - |messages|..] == messages
      && CountTokens(result, cost) > maxInputTokens
  {
    var sec := Partition(messages, pinnedStartCount, 0);
    ZeroEndPinsEverything(messages, pinnedStartCount);
    var trimmed := Trimmed(sec, sec.middle, ProtectedIndexes(sec.middle), maxInputTokens, cost);
    var result := Joined(sec, trimmed);
    assert result == (sec.pinnedStart + trimmed) + messages;
    CountTokensAppend(sec.pinnedStart + trimmed, messages, cost);
  }

  /**
   * Pins that overlap take the overlapping messages twice: the middle is
   * empty and the sections join to more messages than the transcript has.
   */
  lemma OverlappingPinsRepeat(messages: seq<Message>, pinnedStartCount: int, pinnedEndCount: int,
                              maxInputTokens: int, cost: Message -> nat)
    requires 0 <= pinnedStartCount <= |messages| && 1 <= pinnedEndCount <= |messages|
    requires pinnedStartCount + pinnedEndCount > |messages|
    ensures var sec := Partition(messages, pinnedStartCount, pinnedEndCount);
      sec.middle == []
      && Joined(sec, sec.middle) == messages[..pinnedStartCount] + messages[|messages| - pinnedEndCount..]
      && |Joined(sec, sec.middle)| > |messages|
    ensures CountTokens(messages, cost) > maxInputTokens ==>
      |Compressed(messages, maxInputTokens, pinnedStartCount, pinnedEndCount, cost)| > |messages|
  {
  }

  // ---- The corrected trimming

  /**
   * The sections with both pins clamped so that they never overlap, and an
   * end pin of 0 pinning nothing.
   */
  function PartitionIntended(messages: seq<Message>, pinnedStartCount: int, pinnedEndCount: int): (sec: Sections)
    ensures Joined(sec, sec.middle) == messages
    ensures 0 <= pinnedStartCount && 0 <= pinnedEndCount && pinnedStartCount + pinnedEndCount <= |messages| ==>
      sec.pinnedStart == messages[..pinnedStartCount] && sec.pinnedEnd == messages[|messages| - pinnedEndCount..]
  {
    var n := |messages|;
    var s := if pinnedStartCount < 0 then 0 else if pinnedStartCount > n then n else pinnedStartCount;
    var e := if pinnedEndCount < 0 then 0 else if pinnedEndCount > n - s then n - s else pinnedEndCount;
    assert messages[..s] + messages[s..n - e] + messages[n - e..] == messages;
    Sections(messages[..s], messages[s..n - e], messages[n - e..])
  }

  /** Where the pins already fit, the correction takes the same sections as the code. */
  lemma PartitionIntendedAgrees(messages: seq<Message>, pinnedStartCount: int, pinnedEndCount: int)
    requires 0 <= pinnedStartCount && 1 <= pinnedEndCount && pinnedStartCount + pinnedEndCount <= |messages|
    ensures PartitionIntended(messages, pinnedStartCount, pinnedEndCount)
      == Partition(messages, pinnedStartCount, pinnedEndCount)
  {
    PartitionWellFormed(messages, pinnedStartCount, pinnedEndCount);
  }

  /** The positions `0, 1, ..., n - 1`. */
  function Upto(n: nat): (r: seq<nat>)
    ensures |r| == n
    ensures forall i :: 0 <= i < n ==> r[i] == i
  {
    if n == 0 then [] else Upto(n - 1) + [n - 1]
  }

  /** The elements of `s` at the positions `picks`, in that order. */
  function Pick<T>(s: seq<T>, picks: seq<nat>): (r: seq<T>)
    requires forall i :: 0 <= i < |picks| ==> picks[i] < |s|
    ensures |r| == |picks|
    ensures forall i :: 0 <= i < |picks| ==> r[i] == s[picks[i]]
  {
    if picks == [] then []
    else
      var n := |picks| - 1;
      Pick(s, picks[..n]) + [s[picks[n]]]
  }

  predicate Increasing(picks: seq<nat>) {
    forall i, j :: 0 <= i < j < |picks| ==> picks[i] < picks[j]
  }

  /**
   * The survivors once every unprotected position below `b` has been
   * deleted: the positions below `n` that are protected or at least `b`, in
   * increasing order.
   */
  function Kept(prot: set<nat>, n: nat, b: nat): (r: seq<nat>)
    ensures forall i :: 0 <= i < |r| ==> r[i] < n
  {
    if n == 0 then []
    else
      var prefix := Kept(prot, n - 1, b);
      if n - 1 in prot || b <= n - 1 then prefix + [n - 1] else prefix
  }

  /** The survivors at stage `b` are exactly the protected positions and those from `b` on, in increasing order. */
  lemma {:induction false} KeptMembers(prot: set<nat>, n: nat, b: nat)
    ensures forall q :: q in Kept(prot, n, b) <==> q < n && (q in prot || b <= q)
    ensures Increasing(Kept(prot, n, b))
  {
    if n > 0 {
      KeptMembers(prot, n - 1, b);
    }
  }

  /** The transcript cost once the unprotected middle positions below `b` are deleted. */
  function StageCost(sec: Sections, prot: set<nat>, cost: Message -> nat, b: nat): nat {
    CountTokens(Joined(sec, Pick(sec.middle, Kept(prot, |sec.middle|, b))), cost)
  }

  /**
   * Stage `b` is reached by deleting the unprotected positions below `b`
   * one at a time, earliest first: `b` is 0 or one past a deleted position,
   * and before every deletion the transcript was over budget.
   */
  predicate StagePrefix(sec: Sections, prot: set<nat>, maxInputTokens: int, cost: Message -> nat, b: nat) {
    b <= |sec.middle| && (b == 0 || b - 1 !in prot)
    && forall c: nat :: c < b ==> StageCost(sec, prot, cost, c) > maxInputTokens
  }

  /** The trimming stops at stage `b`: the transcript fits, or no unprotected position is left. */
  predicate TrimStage(sec: Sections, prot: set<nat>, maxInputTokens: int, cost: Message -> nat, b: nat) {
    StagePrefix(sec, prot, maxInputTokens, cost, b)
    && (StageCost(sec, prot, cost, b) <= maxInputTokens || forall q :: b <= q < |sec.middle| ==> q in prot)
  }

  /**
   * The intended outcome over budget: the output is the pinned sections
   * around the middle messages at the increasing original positions
   * `survivors`; every protected position survives; the output fits the
   * budget, or every survivor is protected; and the deleted positions are
   * exactly the first unprotected ones, deleted earliest first while the
   * transcript was over budget.
   */
  predicate KeepsExchanges(messages: seq<Message>, maxInputTokens: int, pinnedStartCount: int, pinnedEndCount: int,
                           cost: Message -> nat, result: seq<Message>, survivors: seq<nat>)
  {
    var sec := PartitionIntended(messages, pinnedStartCount, pinnedEndCount);
    var prot := ProtectedIndexes(sec.middle);
    Increasing(survivors)
    && (forall i :: 0 <= i < |survivors| ==> survivors[i] < |sec.middle|)
    && (forall q :: q in prot ==> q in survivors)
    && result == Joined(sec, Pick(sec.middle, survivors))
    && (CountTokens(result, cost) <= maxInputTokens || forall i :: 0 <= i < |survivors| ==> survivors[i] in prot)
    && exists b: nat :: b <= |sec.middle| && survivors == Kept(prot, |sec.middle|, b)
                         && TrimStage(sec, prot, maxInputTokens, cost, b)
  }

  /** `findIndex` over the survivors by their original positions: the first one not protected, or -1. */
  method FindUnprotectedSurvivor(survivors: seq<nat>, protectedIndexes: set<nat>) returns (idx: int)
    ensures -1 <= idx < |survivors|
    ensures idx == -1 ==> forall i :: 0 <= i < |survivors| ==> survivors[i] in protectedIndexes
    ensures 0 <= idx ==> (survivors[idx] !in protectedIndexes
                          && forall i :: 0 <= i < idx ==> survivors[i] in protectedIndexes)
  {
    idx := 0;
    while idx < |survivors| && survivors[idx] in protectedIndexes
      invariant 0 <= idx <= |survivors|
      invariant forall i :: 0 <= i < idx ==> survivors[i] in protectedIndexes
    {
      idx := idx + 1;
    }
    if idx == |survivors| {
      idx := -1;
    }
  }

  /** Removing a survivor removes the message picked for it. */
  lemma PickRemove<T>(s: seq<T>, picks: seq<nat>, idx: nat)
    requires forall i :: 0 <= i < |picks| ==> picks[i] < |s|
    requires idx < |picks|
    ensures Pick(s, picks[..idx] + picks[idx + 1..]) == Pick(s, picks)[..idx] + Pick(s, picks)[idx + 1..]
  {
    var rest := picks[..idx] + picks[idx + 1..];
    var all := Pick(s, picks);
    var a := Pick(s, rest);
    var b := all[..idx] + all[idx + 1..];
    assert |rest| == |b| == |picks| - 1;
    forall i | 0 <= i < |a|
      ensures a[i] == b[i]
    {
      if i < idx {
        assert rest[i] == picks[i] && b[i] == all[i];
      } else {
        assert rest[i] == picks[i + 1] && b[i] == all[i + 1];
      }
    }
  }

  /** Before any deletion every position survives. */
  lemma {:induction false} KeptFromZero(prot: set<nat>, n: nat)
    ensures Kept(prot, n, 0) == Upto(n)
  {
    if n > 0 {
      KeptFromZero(prot, n - 1);
    }
  }

  /** Stages that differ only in protected positions keep the same survivors. */
  lemma {:induction false} KeptSame(prot: set<nat>, n: nat, b: nat, c: nat)
    requires b <= c
    requires forall x :: b <= x < c && x < n ==> x in prot
    ensures Kept(prot, n, c) == Kept(prot, n, b)
  {
    if n > 0 {
      KeptSame(prot, n - 1, b, c);
    }
  }

  /**
   * The first unprotected survivor at stage `b` is the least unprotected
   * position `q` at or above `b`: every stage from `b` to `q` keeps the same
   * survivors, and deleting `q` gives stage `q + 1`.
   */
  lemma KeptAdvance(prot: set<nat>, n: nat, b: nat, idx: nat)
    requires idx < |Kept(prot, n, b)|
    requires Kept(prot, n, b)[idx] !in prot
    requires forall i :: 0 <= i < idx ==> Kept(prot, n, b)[i] in prot
    ensures b <= Kept(prot, n, b)[idx]
    ensures forall c: nat :: b <= c <= Kept(prot, n, b)[idx] ==> Kept(prot, n, c) == Kept(prot, n, b)
    ensures Kept(prot, n, b)[..idx] + Kept(prot, n, b)[idx + 1..] == Kept(prot, n, Kept(prot, n, b)[idx] + 1)
  {
    var survivors := Kept(prot, n, b);
    var q := survivors[idx];
    KeptMembers(prot, n, b);
    assert q in survivors;
    assert forall x :: b <= x < q ==> x in prot;
    forall c: nat | b <= c <= q
      ensures Kept(prot, n, c) == survivors
    {
      KeptSame(prot, n, b, c);
    }
    KeptRemove(prot, n, b, idx);
  }

  /** Deleting the first unprotected survivor `q` at stage `b` gives stage `q + 1`. */
  lemma {:induction false} KeptRemove(prot: set<nat>, n: nat, b: nat, idx: nat)
    requires idx < |Kept(prot, n, b)|
    requires b <= Kept(prot, n, b)[idx] && Kept(prot, n, b)[idx] !in prot
    requires forall x :: b <= x < Kept(prot, n, b)[idx] ==> x in prot
    ensures Kept(prot, n, b)[..idx] + Kept(prot, n, b)[idx + 1..] == Kept(prot, n, Kept(prot, n, b)[idx] + 1)
  {
    var q := Kept(prot, n, b)[idx];
    var prefix := Kept(prot, n - 1, b);
    assert Kept(prot, n, b) == prefix + [n - 1];
    if q == n - 1 {
      KeptRemoveLast(prot, n, b, idx);
    } else {
      assert idx < |prefix| && prefix[idx] == q;
      calc {
        Kept(prot, n, b)[..idx] + Kept(prot, n, b)[idx + 1..];
        (prefix + [n - 1])[..idx] + (prefix + [n - 1])[idx + 1..];
        { SnocRemove(prefix, n - 1, idx); }
        (prefix[..idx] + prefix[idx + 1..]) + [n - 1];
        { KeptRemove(prot, n - 1, b, idx); }
        Kept(prot, n - 1, q + 1) + [n - 1];
        Kept(prot, n, q + 1);
      }
    }
  }

  /** Removing an element before the last commutes with appending the last. */
  lemma SnocRemove(s: seq<nat>, last: nat, idx: nat)
    requires idx < |s|
    ensures (s + [last])[..idx] + (s + [last])[idx + 1..] == (s[..idx] + s[idx + 1..]) + [last]
  {
    assert (s + [last])[..idx] == s[..idx];
    assert (s + [last])[idx + 1..] == s[idx + 1..] + [last];
  }

  /** The case of `KeptRemove` where the deleted survivor is the last position. */
  lemma KeptRemoveLast(prot: set<nat>, n: nat, b: nat, idx: nat)
    requires idx < |Kept(prot, n, b)|
    requires Kept(prot, n, b)[idx] == n - 1
    requires b <= n - 1 && n - 1 !in prot
    requires forall x :: b <= x < n - 1 ==> x in prot
    ensures Kept(prot, n, b)[..idx] + Kept(prot, n, b)[idx + 1..] == Kept(prot, n, n)
  {
    var prefix := Kept(prot, n - 1, b);
    assert Kept(prot, n, b) == prefix + [n - 1];
    assert idx == |prefix|;
    assert Kept(prot, n, b)[..idx] == prefix && Kept(prot, n, b)[idx + 1..] == [];
    KeptSame(prot, n - 1, b, n);
    assert Kept(prot, n, n) == Kept(prot, n - 1, n);
  }

  /** When every survivor at stage `b` is protected, so is every position from `b` on. */
  lemma KeptExhausted(prot: set<nat>, n: nat, b: nat)
    requires forall i :: 0 <= i < |Kept(prot, n, b)| ==> Kept(prot, n, b)[i] in prot
    ensures forall q :: b <= q < n ==> q in prot
  {
    KeptMembers(prot, n, b);
    forall q | b <= q < n
      ensures q in prot
    {
      assert q in Kept(prot, n, b);
    }
  }

  /** Over budget at stage `b`, deleting the first unprotected survivor reaches the next stage. */
  lemma StageAdvance(sec: Sections, prot: set<nat>, maxInputTokens: int, cost: Message -> nat, b: nat, idx: nat)
    requires StagePrefix(sec, prot, maxInputTokens, cost, b)
    requires StageCost(sec, prot, cost, b) > maxInputTokens
    requires idx < |Kept(prot, |sec.middle|, b)|
    requires Kept(prot, |sec.middle|, b)[idx] !in prot
    requires forall i :: 0 <= i < idx ==> Kept(prot, |sec.middle|, b)[i] in prot
    ensures StagePrefix(sec, prot, maxInputTokens, cost, Kept(prot, |sec.middle|, b)[idx] + 1)
    ensures Kept(prot, |sec.middle|, b)[..idx] + Kept(prot, |sec.middle|, b)[idx + 1..]
      == Kept(prot, |sec.middle|, Kept(prot, |sec.middle|, b)[idx] + 1)
  {
    var n := |sec.middle|;
    var q := Kept(prot, n, b)[idx];
    KeptAdvance(prot, n, b, idx);
    forall c: nat | c < q + 1
      ensures StageCost(sec, prot, cost, c) > maxInputTokens
    {
      if b <= c {
        assert Kept(prot, n, c) == Kept(prot, n, b);
      }
    }
  }

  /**
   * The state of the corrected loop at stage `stage`: the survivors are that
   * stage's, and the remaining middle messages are the ones at those
   * original positions.
   */
  predicate Trimming(sec: Sections, prot: set<nat>, maxInputTokens: int, cost: Message -> nat, stage: nat,
                     survivors: seq<nat>, compressedMiddle: seq<Message>)
  {
    StagePrefix(sec, prot, maxInputTokens, cost, stage)
    && survivors == Kept(prot, |sec.middle|, stage)
    && compressedMiddle == Pick(sec.middle, survivors)
  }

  /** Before the corrected loop: stage 0, where every middle position survives. */
  lemma TrimmingStart(sec: Sections, prot: set<nat>, maxInputTokens: int, cost: Message -> nat)
    ensures Trimming(sec, prot, maxInputTokens, cost, 0, Upto(|sec.middle|), sec.middle)
  {
    KeptFromZero(prot, |sec.middle|);
    assert sec.middle == Pick(sec.middle, Upto(|sec.middle|));
  }

  /** One pass of the corrected loop: deleting the first unprotected survivor moves to the next stage. */
  lemma TrimmingStep(sec: Sections, prot: set<nat>, maxInputTokens: int, cost: Message -> nat, stage: nat,
                     survivors: seq<nat>, compressedMiddle: seq<Message>, idx: nat)
    requires Trimming(sec, prot, maxInputTokens, cost, stage, survivors, compressedMiddle)
    requires CountTokens(Joined(sec, compressedMiddle), cost) > maxInputTokens
    requires idx < |survivors| && survivors[idx] !in prot
    requires forall i :: 0 <= i < idx ==> survivors[i] in prot
    ensures Trimming(sec, prot, maxInputTokens, cost, survivors[idx] + 1,
                     survivors[..idx] + survivors[idx + 1..], compressedMiddle[..idx] + compressedMiddle[idx + 1..])
    ensures |survivors[..idx] + survivors[idx + 1..]| < |survivors|
  {
    StageAdvance(sec, prot, maxInputTokens, cost, stage, idx);
    PickRemove(sec.middle, survivors, idx);
  }

  /** The corrected loop stops at a trimming stage: the transcript fits, or every survivor is protected. */
  lemma TrimmingDone(sec: Sections, prot: set<nat>, maxInputTokens: int, cost: Message -> nat, stage: nat,
                     survivors: seq<nat>, compressedMiddle: seq<Message>)
    requires Trimming(sec, prot, maxInputTokens, cost, stage, survivors, compressedMiddle)
    requires CountTokens(Joined(sec, compressedMiddle), cost) <= maxInputTokens
      || forall i :: 0 <= i < |survivors| ==> survivors[i] in prot
    ensures TrimStage(sec, prot, maxInputTokens, cost, stage)
    ensures survivors == Kept(prot, |sec.middle|, stage)
    ensures compressedMiddle == Pick(sec.middle, survivors)
  {
    if CountTokens(Joined(sec, compressedMiddle), cost) > maxInputTokens {
      KeptExhausted(prot, |sec.middle|, stage);
    }
  }

  /**
   * The corrected trimming loop over a middle section whose protected
   * positions are `protectedIndexes`: while the transcript is over budget,
   * delete the first surviving middle message whose original position is
   * not protected, and stop when it fits or none is left. It stops at a
   * trimming stage, keeping exactly that stage's survivors.
   */
  method TrimMiddle(sec: Sections, protectedIndexes: set<nat>, maxInputTokens: int, cost: Message -> nat)
    returns (compressedMiddle: seq<Message>, survivors: seq<nat>, ghost stage: nat)
    ensures TrimStage(sec, protectedIndexes, maxInputTokens, cost, stage)
    ensures survivors == Kept(protectedIndexes, |sec.middle|, stage)
    ensures compressedMiddle == Pick(sec.middle, survivors)
  {
    TrimmingStart(sec, protectedIndexes, maxInputTokens, cost);
    stage, survivors, compressedMiddle := 0, Upto(|sec.middle|), sec.middle;
    while CountTokens(Joined(sec, compressedMiddle), cost) > maxInputTokens
      invariant Trimming(sec, protectedIndexes, maxInputTokens, cost, stage, survivors, compressedMiddle)
      decreases |survivors|
    {
      var idx := FindUnprotectedSurvivor(survivors, protectedIndexes);
      if idx == -1 {
        break;
      }
      TrimmingStep(sec, protectedIndexes, maxInputTokens, cost, stage, survivors, compressedMiddle, idx);
      stage, survivors, compressedMiddle :=
        survivors[idx] + 1, survivors[..idx] + survivors[idx + 1..], compressedMiddle[..idx] + compressedMiddle[idx + 1..];
    }
    TrimmingDone(sec, protectedIndexes, maxInputTokens, cost, stage, survivors, compressedMiddle);
  }

  /**
   * The trimming as intended: clamp the pins, and track the original
   * position of every remaining middle message so that the protected set
   * is tested against the positions it was computed for.
   */
  method CompressIntended(messages: seq<Message>, maxInputTokens: int, pinnedStartCount: int, pinnedEndCount: int,
                          cost: Message -> nat)
    returns (result: seq<Message>, survivors: seq<nat>)
    ensures CountTokens(messages, cost) <= maxInputTokens ==> result == messages
    ensures CountTokens(messages, cost) > maxInputTokens ==>
      KeepsExchanges(messages, maxInputTokens, pinnedStartCount, pinnedEndCount, cost, result, survivors)
  {
    var sec := PartitionIntended(messages, pinnedStartCount, pinnedEndCount);
    if CountTokens(messages, cost) <= maxInputTokens {
      return messages, Upto(|sec.middle|);
    }
    var protectedIndexes := GroupToolCallPairs(sec.middle);
    var compressedMiddle;
    ghost var stage;
    compressedMiddle, survivors, stage := TrimMiddle(sec, protectedIndexes, maxInputTokens, cost);
    result := Joined(sec, compressedMiddle);
    StageKeepsExchanges(messages, maxInputTokens, pinnedStartCount, pinnedEndCount, cost, sec, protectedIndexes, stage);
  }

  /** Stopping at a stage meets the intended outcome. */
  lemma StageKeepsExchanges(messages: seq<Message>, maxInputTokens: int, pinnedStartCount: int, pinnedEndCount: int,
                            cost: Message -> nat, sec: Sections, prot: set<nat>, stage: nat)
    requires sec == PartitionIntended(messages, pinnedStartCount, pinnedEndCount)
    requires prot == ProtectedIndexes(sec.middle)
    requires TrimStage(sec, prot, maxInputTokens, cost, stage)
    ensures var survivors := Kept(prot, |sec.middle|, stage);
      KeepsExchanges(messages, maxInputTokens, pinnedStartCount, pinnedEndCount, cost,
                     Joined(sec, Pick(sec.middle, survivors)), survivors)
  {
    KeptMembers(prot, |sec.middle|, stage);
    ProtectedInBounds(sec.middle);
  }

  /**
   * `transformParams` with the corrected compression: the same pass-through
   * guard and budget check, and over budget a prompt that keeps every tool
   * exchange of the middle.
   */
  method TransformParamsIntended<S>(callType: CallType, params: Params<S>, maxInputTokens: int,
                                    pinnedStartCount: int, pinnedEndCount: int,
                                    tokenCountFn: Option<Message -> nat>, serialize: seq<Part> -> string)
    returns (result: Params<S>, survivors: seq<nat>)
    ensures result.settings == params.settings
    ensures !((callType == Generate || callType == Stream) && params.prompt.MessageArray?) ==> result == params
    ensures params.prompt.MessageArray?
      && CountTokens(params.prompt.messages, m => MessageCost(tokenCountFn, serialize, m)) <= maxInputTokens
      ==> result == params
    ensures (callType == Generate || callType == Stream) && params.prompt.MessageArray?
      && CountTokens(params.prompt.messages, m => MessageCost(tokenCountFn, serialize, m)) > maxInputTokens
      ==> result.prompt.MessageArray?
          && KeepsExchanges(params.prompt.messages, maxInputTokens, pinnedStartCount, pinnedEndCount,
                            m => MessageCost(tokenCountFn, serialize, m), result.prompt.messages, survivors)
  {
    survivors := [];
    if (callType == Generate || callType == Stream) && params.prompt.MessageArray? {
      var messages := params.prompt.messages;
      var cost := m => MessageCost(tokenCountFn, serialize, m);
      if CountTokens(messages, cost) <= maxInputTokens {
        return params, survivors;
      }
      var compressed;
      compressed, survivors := CompressIntended(messages, maxInputTokens, pinnedStartCount, pinnedEndCount, cost);
      return params.(prompt := MessageArray(compressed)), survivors;
    }
    return params, survivors;
  }
}
