/**
 * The pair indexer: which positions of a message list lie between a tool
 * call and its tool result, and so are protected from deletion.
 */
module ToolCallPairs {
  import opened Messages

  /** A part is recorded on the call side (`isCall`) or the result side when its type matches and its id is non-empty. */
  predicate Records(p: Part, isCall: bool) {
    (if isCall then p.ToolCallPart? else p.ToolResultPart?) && p.toolCallId != ""
  }

  /** The ids of the parts of `parts` recorded on one side, in part order. */
  function PartIds(parts: seq<Part>, isCall: bool): (ids: seq<string>)
    ensures forall id :: id in ids ==> id != ""
    ensures |ids| <= |parts|
  {
    if parts == [] then []
    else
      var last := parts[|parts| - 1];
      PartIds(parts[..|parts| - 1], isCall) + if Records(last, isCall) then [last.toolCallId] else []
  }

  /** Ids a message records as calls: only assistant messages whose content is an array of parts. */
  function CallIds(msg: Message): seq<string> {
    if msg.role == Assistant && msg.content.Parts? then PartIds(msg.content.parts, true) else []
  }

  /** Ids a message records as results: only tool messages whose content is an array of parts. */
  function ResultIds(msg: Message): seq<string> {
    if msg.role == Tool && msg.content.Parts? then PartIds(msg.content.parts, false) else []
  }

  /**
   * `Map.set(id, pos)` for every id of `ids` in turn: the keys grow by `ids`,
   * and every id of `ids` now maps to `pos` while the other entries are kept.
   */
  function SetAll(m: map<string, nat>, ids: seq<string>, pos: nat): (r: map<string, nat>)
    ensures forall id :: id in r <==> id in m || id in ids
    ensures forall id :: id in r ==> r[id] == if id in ids then pos else m[id]
  {
    if ids == [] then m
    else
      var n := |ids| - 1;
      assert forall id :: id in ids <==> id in ids[..n] || id == ids[n] by {
        assert ids == ids[..n] + [ids[n]];
      }
      SetAll(m, ids[..n], pos)[ids[n] := pos]
  }

  /**
   * The map a last-write-wins scan builds: each id recorded by some message
   * (as `ids` selects) is mapped to a position that records it.
   */
  function LastPositions(msgs: seq<Message>, ids: Message -> seq<string>): (m: map<string, nat>)
    ensures forall id :: id in m ==> m[id] < |msgs|
  {
    if msgs == [] then map[]
    else
      var n := |msgs| - 1;
      SetAll(LastPositions(msgs[..n], ids), ids(msgs[n]), n)
  }

  /** `pos` is the last position of `msgs` at which `id` is recorded. */
  ghost predicate IsLastPosition(msgs: seq<Message>, ids: Message -> seq<string>, id: string, pos: nat) {
    pos < |msgs| && id in ids(msgs[pos])
    && forall j :: pos < j < |msgs| ==> id !in ids(msgs[j])
  }

  function Min(a: nat, b: nat): nat { if a <= b then a else b }

  function Max(a: nat, b: nat): nat { if a <= b then b else a }

  /** The positions `lo`, `lo + 1`, ..., `hi - 1`. */
  function Interval(lo: nat, hi: nat): (r: set<nat>)
    ensures forall i :: i in r <==> lo <= i < hi
    decreases hi
  {
    if hi <= lo then {} else Interval(lo, hi - 1) + {hi - 1}
  }

  /** The inclusive range between two positions, in either order. */
  function Between(a: nat, b: nat): set<nat> {
    Interval(Min(a, b), Max(a, b) + 1)
  }

  /** The union, over the ids in `ids` found in both maps, of the range between the two positions. */
  function Ranges(calls: map<string, nat>, results: map<string, nat>, ids: set<string>): set<nat> {
    set id, i | id in ids && id in calls && id in results && i in Between(calls[id], results[id]) :: i
  }

  /** The set `groupToolCallPairs` returns. */
  function ProtectedIndexes(msgs: seq<Message>): set<nat> {
    var calls := LastPositions(msgs, CallIds);
    Ranges(calls, LastPositions(msgs, ResultIds), calls.Keys)
  }

  /**
   * The indexer as the source writes it: one pass records the last position
   * of every call id and every result id; a second pass over the call map
   * adds the range between each call and its result.
   */
  method GroupToolCallPairs(messages: seq<Message>) returns (protectedIndexes: set<nat>)
    ensures protectedIndexes == ProtectedIndexes(messages)
    ensures forall i :: i in protectedIndexes ==> i < |messages|
  {
    var toolCalls, toolResults := RecordLastPositions(messages);
    protectedIndexes := AddPairRanges(toolCalls, toolResults);
    ProtectedInBounds(messages);
  }

  /**
   * The `forEach` pass: `toolCalls.set` and `toolResults.set` for every
   * recorded part, so that a later message overwrites an earlier one.
   */
  method RecordLastPositions(messages: seq<Message>) returns (toolCalls: map<string, nat>, toolResults: map<string, nat>)
    ensures toolCalls == LastPositions(messages, CallIds)
    ensures toolResults == LastPositions(messages, ResultIds)
  {
    toolCalls := map[];
    toolResults := map[];
    for idx := 0 to |messages|
      invariant toolCalls == LastPositions(messages[..idx], CallIds)
      invariant toolResults == LastPositions(messages[..idx], ResultIds)
    {
      var msg := messages[idx];
      LastPositionsSnoc(messages, idx, CallIds);
      LastPositionsSnoc(messages, idx, ResultIds);
      if msg.role == Assistant && msg.content.Parts? {
        toolCalls := RecordParts(toolCalls, msg.content.parts, true, idx);
      }
      if msg.role == Tool && msg.content.Parts? {
        toolResults := RecordParts(toolResults, msg.content.parts, false, idx);
      }
    }
    assert messages[..|messages|] == messages;
  }

  /**
   * The inner `for ... of msg.content` loop of either side: `set` the id of
   * every recorded part to `idx`.
   */
  method RecordParts(positions: map<string, nat>, parts: seq<Part>, isCall: bool, idx: nat)
    returns (updated: map<string, nat>)
    ensures updated == SetAll(positions, PartIds(parts, isCall), idx)
  {
    updated := positions;
    for k := 0 to |parts|
      invariant updated == SetAll(positions, PartIds(parts[..k], isCall), idx)
    {
      var part := parts[k];
      assert parts[..k + 1][..k] == parts[..k];
      if (if isCall then part.ToolCallPart? else part.ToolResultPart?) && part.toolCallId != "" {
        SetAllSnoc(positions, PartIds(parts[..k], isCall), part.toolCallId, idx);
        updated := updated[part.toolCallId := idx];
      } else {
        assert PartIds(parts[..k + 1], isCall) == PartIds(parts[..k], isCall) + [];
        assert PartIds(parts[..k], isCall) + [] == PartIds(parts[..k], isCall);
      }
    }
    assert parts[..|parts|] == parts;
  }

  /** The `for ... of toolCalls.entries()` pass: add every position between a call and its result. */
  method AddPairRanges(toolCalls: map<string, nat>, toolResults: map<string, nat>) returns (protectedIndexes: set<nat>)
    ensures protectedIndexes == Ranges(toolCalls, toolResults, toolCalls.Keys)
  {
    protectedIndexes := {};
    var pending := toolCalls.Keys;
    while pending != {}
      invariant pending <= toolCalls.Keys
      invariant protectedIndexes == Ranges(toolCalls, toolResults, toolCalls.Keys - pending)
      decreases pending
    {
      var id :| id in pending;
      var callIdx := toolCalls[id];
      ghost var before := protectedIndexes;
      if id in toolResults {
        var resultIdx := toolResults[id];
        var i := Min(callIdx, resultIdx);
        while i <= Max(callIdx, resultIdx)
          invariant Min(callIdx, resultIdx) <= i <= Max(callIdx, resultIdx) + 1
          invariant protectedIndexes == before + Interval(Min(callIdx, resultIdx), i)
        {
          protectedIndexes := protectedIndexes + {i};
          i := i + 1;
        }
      }
      RangesAddId(toolCalls, toolResults, toolCalls.Keys - pending, id);
      assert toolCalls.Keys - (pending - {id}) == (toolCalls.Keys - pending) + {id};
      pending := pending - {id};
    }
  }

  /**
   * Only the parts `Records` accepts are recorded: an id is among a part
   * list's ids exactly when some part of that side's type carries it, and it
   * is non-empty.
   */
  lemma {:induction false} PartIdsExact(parts: seq<Part>, isCall: bool, id: string)
    ensures id in PartIds(parts, isCall) <==> exists p :: p in parts && Records(p, isCall) && p.toolCallId == id
  {
    if parts != [] {
      var n := |parts| - 1;
      PartIdsExact(parts[..n], isCall, id);
      assert parts == parts[..n] + [parts[n]];
      if exists p :: p in parts && Records(p, isCall) && p.toolCallId == id {
        var p :| p in parts && Records(p, isCall) && p.toolCallId == id;
        if p != parts[n] {
          assert p in parts[..n];
        }
      }
    }
  }

  /** Extending the scanned prefix by one message sets that message's ids to its position. */
  lemma LastPositionsSnoc(msgs: seq<Message>, idx: nat, ids: Message -> seq<string>)
    requires idx < |msgs|
    ensures LastPositions(msgs[..idx + 1], ids) == SetAll(LastPositions(msgs[..idx], ids), ids(msgs[idx]), idx)
  {
    assert msgs[..idx + 1][..idx] == msgs[..idx];
  }

  /** Setting one more id is one more `Map.set`. */
  lemma SetAllSnoc(m: map<string, nat>, ids: seq<string>, id: string, pos: nat)
    ensures SetAll(m, ids + [id], pos) == SetAll(m, ids, pos)[id := pos]
  {
    assert (ids + [id])[..|ids|] == ids;
  }

  /** Adding one id to the selection adds exactly that id's range, if it has a result. */
  lemma RangesAddId(calls: map<string, nat>, results: map<string, nat>, ids: set<string>, id: string)
    requires id in calls
    ensures Ranges(calls, results, ids + {id}) ==
      Ranges(calls, results, ids)
      + if id in results then Between(calls[id], results[id]) else {}
  {
  }

  /** Every protected position is a position of the list. */
  lemma ProtectedInBounds(msgs: seq<Message>)
    ensures forall i :: i in ProtectedIndexes(msgs) ==> i < |msgs|
  {
  }

  /**
   * Last write wins: an id is in the map exactly when some message records
   * it, and then the map holds the last position that records it.
   */
  lemma {:induction false} LastPositionsExact(msgs: seq<Message>, ids: Message -> seq<string>, id: string)
    ensures id in LastPositions(msgs, ids) <==> exists i :: 0 <= i < |msgs| && id in ids(msgs[i])
    ensures id in LastPositions(msgs, ids) ==> IsLastPosition(msgs, ids, id, LastPositions(msgs, ids)[id])
  {
    if msgs != [] {
      var n := |msgs| - 1;
      var prefix := msgs[..n];
      LastPositionsExact(prefix, ids, id);
      if id in ids(msgs[n]) {
        assert LastPositions(msgs, ids)[id] == n;
      } else {
        assert id in LastPositions(msgs, ids) <==> id in LastPositions(prefix, ids);
        if id in LastPositions(prefix, ids) {
          var pos := LastPositions(prefix, ids)[id];
          assert LastPositions(msgs, ids)[id] == pos;
        }
        forall i | 0 <= i < |msgs| && id in ids(msgs[i])
          ensures id in LastPositions(prefix, ids)
        {
          assert i < n && prefix[i] == msgs[i];
        }
      }
    }
  }

  /** At most one position is the last one recording an id. */
  lemma LastPositionUnique(msgs: seq<Message>, ids: Message -> seq<string>, id: string, p: nat, q: nat)
    requires IsLastPosition(msgs, ids, id, p) && IsLastPosition(msgs, ids, id, q)
    ensures p == q
  {
  }

  /**
   * Exactness: a position is protected exactly when it lies between the
   * last call and the last result of one id; an id seen on one side only
   * contributes nothing.
   */
  lemma ProtectedExact(msgs: seq<Message>, i: nat)
    ensures i in ProtectedIndexes(msgs) <==>
      exists id, c: nat, r: nat :: IsLastPosition(msgs, CallIds, id, c) && IsLastPosition(msgs, ResultIds, id, r)
        && Min(c, r) <= i <= Max(c, r)
  {
    var calls := LastPositions(msgs, CallIds);
    var results := LastPositions(msgs, ResultIds);
    if i in ProtectedIndexes(msgs) {
      var id :| id in calls && id in results && i in Between(calls[id], results[id]);
      LastPositionsExact(msgs, CallIds, id);
      LastPositionsExact(msgs, ResultIds, id);
    }
    if exists id, c: nat, r: nat :: IsLastPosition(msgs, CallIds, id, c) && IsLastPosition(msgs, ResultIds, id, r)
        && Min(c, r) <= i <= Max(c, r) {
      var id, c: nat, r: nat :| IsLastPosition(msgs, CallIds, id, c) && IsLastPosition(msgs, ResultIds, id, r)
        && Min(c, r) <= i <= Max(c, r);
      LastPositionsExact(msgs, CallIds, id);
      LastPositionsExact(msgs, ResultIds, id);
      LastPositionUnique(msgs, CallIds, id, c, calls[id]);
      LastPositionUnique(msgs, ResultIds, id, r, results[id]);
      assert i in Between(calls[id], results[id]);
    }
  }

  /** When no id is recorded both as a call and as a result, nothing is protected. */
  lemma UnmatchedProtectNothing(msgs: seq<Message>)
    requires forall i, j, id :: 0 <= i < |msgs| && 0 <= j < |msgs| && id in CallIds(msgs[i]) ==> id !in ResultIds(msgs[j])
    ensures ProtectedIndexes(msgs) == {}
  {
    var calls := LastPositions(msgs, CallIds);
    var results := LastPositions(msgs, ResultIds);
    forall id | id in calls && id in results
      ensures false
    {
      LastPositionsExact(msgs, CallIds, id);
      LastPositionsExact(msgs, ResultIds, id);
    }
  }
}

/** The documented test vectors of the pair indexer. */
module ToolCallPairsExamples {
  import opened Messages
  import opened ToolCallPairs

  function Said(role: Role, text: string): Message {
    Message(role, Parts([TextPart(text)]))
  }

  function Call(id: string, name: string): Message {
    Message(Assistant, Parts([ToolCallPart(id, name, "{}")]))
  }

  function Result(id: string, name: string): Message {
    Message(Tool, Parts([ToolResultPart(id, name, "{}")]))
  }

  /** A message with a single part records that part's id, if any. */
  lemma SinglePartIds(p: Part, isCall: bool)
    ensures PartIds([p], isCall) == if Records(p, isCall) then [p.toolCallId] else []
  {
    assert [p][..0] == [];
  }

  lemma NoToolPartsProtectNothing(msgs: seq<Message>)
    requires msgs == [Said(User, "hi"), Said(Assistant, "hello")]
    ensures ProtectedIndexes(msgs) == {}
  {
    SinglePartIds(TextPart("hi"), true);
    SinglePartIds(TextPart("hello"), true);
    SinglePartIds(TextPart("hi"), false);
    SinglePartIds(TextPart("hello"), false);
    UnmatchedProtectNothing(msgs);
  }

  /** When each side records exactly the given ids at the given positions, the maps are exactly those positions. */
  lemma PositionsOf(msgs: seq<Message>, ids: Message -> seq<string>, expected: map<string, nat>)
    requires forall id :: id in expected ==> expected[id] < |msgs|
    requires forall i, id :: 0 <= i < |msgs| ==> (id in ids(msgs[i]) <==> id in expected && expected[id] == i)
    ensures LastPositions(msgs, ids) == expected
  {
    var m := LastPositions(msgs, ids);
    forall id
      ensures id in m <==> id in expected
      ensures id in m ==> m[id] == expected[id]
    {
      LastPositionsExact(msgs, ids, id);
      if id in expected {
        assert id in ids(msgs[expected[id]]);
      }
    }
  }

  /** One id seen on both sides protects the range between its two positions. */
  lemma OnePairRange(id: string, c: nat, r: nat)
    ensures Ranges(map[id := c], map[id := r], map[id := c].Keys) == Between(c, r)
  {
    RangesAddId(map[id := c], map[id := r], {}, id);
    assert map[id := c].Keys == {} + {id};
  }

  lemma AdjacentPairPositions(msgs: seq<Message>)
    requires msgs == [Said(User, "before"), Call("abc", "getData"), Result("abc", "getData"), Said(Assistant, "after")]
    ensures LastPositions(msgs, CallIds) == map["abc" := 1]
  {
    SinglePartIds(TextPart("after"), true);
    SinglePartIds(ToolCallPart("abc", "getData", "{}"), true);
    PositionsOf(msgs, CallIds, map["abc" := 1]);
  }

  lemma ProtectsAdjacentPair(msgs: seq<Message>)
    requires msgs == [Said(User, "before"), Call("abc", "getData"), Result("abc", "getData"), Said(Assistant, "after")]
    ensures ProtectedIndexes(msgs) == {1, 2}
  {
    AdjacentPairPositions(msgs);
    assert LastPositions(msgs, ResultIds) == map["abc" := 2] by {
      SinglePartIds(ToolResultPart("abc", "getData", "{}"), false);
      PositionsOf(msgs, ResultIds, map["abc" := 2]);
    }
    OnePairRange("abc", 1, 2);
  }

  lemma SplitPairPositions(msgs: seq<Message>)
    requires msgs == [Said(User, "start"), Call("x", "getFoo"), Said(User, "middle"), Result("x", "getFoo")]
    ensures LastPositions(msgs, CallIds) == map["x" := 1]
  {
    SinglePartIds(ToolCallPart("x", "getFoo", "{}"), true);
    PositionsOf(msgs, CallIds, map["x" := 1]);
  }

  lemma ProtectsSplitPair(msgs: seq<Message>)
    requires msgs == [Said(User, "start"), Call("x", "getFoo"), Said(User, "middle"), Result("x", "getFoo")]
    ensures ProtectedIndexes(msgs) == {1, 2, 3}
  {
    SplitPairPositions(msgs);
    assert LastPositions(msgs, ResultIds) == map["x" := 3] by {
      SinglePartIds(ToolResultPart("x", "getFoo", "{}"), false);
      PositionsOf(msgs, ResultIds, map["x" := 3]);
    }
    OnePairRange("x", 1, 3);
  }

  lemma IgnoresUnmatchedCall(msgs: seq<Message>)
    requires msgs == [Call("unmatched", "oops")]
    ensures ProtectedIndexes(msgs) == {}
  {
    SinglePartIds(ToolCallPart("unmatched", "oops", "{}"), true);
    UnmatchedProtectNothing(msgs);
  }

  lemma IgnoresUnmatchedResult(msgs: seq<Message>)
    requires msgs == [Result("unmatched", "oops")]
    ensures ProtectedIndexes(msgs) == {}
  {
    SinglePartIds(ToolResultPart("unmatched", "oops", "{}"), false);
    UnmatchedProtectNothing(msgs);
  }

  lemma TwoPairsCalls(msgs: seq<Message>)
    requires msgs == [Call("abc", "getData"), Result("abc", "getData"), Call("z", "bar"), Result("z", "bar")]
    ensures LastPositions(msgs, CallIds) == map["abc" := 0, "z" := 2]
  {
    SinglePartIds(ToolCallPart("abc", "getData", "{}"), true);
    SinglePartIds(ToolCallPart("z", "bar", "{}"), true);
    PositionsOf(msgs, CallIds, map["abc" := 0, "z" := 2]);
  }

  lemma TwoPairsResults(msgs: seq<Message>)
    requires msgs == [Call("abc", "getData"), Result("abc", "getData"), Call("z", "bar"), Result("z", "bar")]
    ensures LastPositions(msgs, ResultIds) == map["abc" := 1, "z" := 3]
  {
    SinglePartIds(ToolResultPart("abc", "getData", "{}"), false);
    SinglePartIds(ToolResultPart("z", "bar", "{}"), false);
    PositionsOf(msgs, ResultIds, map["abc" := 1, "z" := 3]);
  }

  lemma TwoPairRanges(calls: map<string, nat>, results: map<string, nat>)
    requires calls == map["abc" := 0, "z" := 2] && results == map["abc" := 1, "z" := 3]
    ensures Ranges(calls, results, calls.Keys) == {0, 1, 2, 3}
  {
    RangesAddId(calls, results, {"abc"}, "z");
    RangesAddId(calls, results, {}, "abc");
    assert calls.Keys == {} + {"abc"} + {"z"};
    assert Between(0, 1) == {0, 1};
    assert Between(2, 3) == {2, 3};
  }

  lemma ProtectsTwoPairs(msgs: seq<Message>)
    requires msgs == [Call("abc", "getData"), Result("abc", "getData"), Call("z", "bar"), Result("z", "bar")]
    ensures ProtectedIndexes(msgs) == {0, 1, 2, 3}
  {
    TwoPairsCalls(msgs);
    TwoPairsResults(msgs);
    TwoPairRanges(LastPositions(msgs, CallIds), LastPositions(msgs, ResultIds));
  }
}
