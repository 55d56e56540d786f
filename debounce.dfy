/** The anti-duplication rule of the two TypeScript revisions: `create` returns early when
    the previous accepted interaction is less than 100 ms old, and otherwise records the
    current time. The clock is a class static, so the rule is shared by every instance. */
module Debounce {

  const InteractionThreshold: int := 100

  /** Whether a `create` call at `now` passes, given the recorded `lastInteractionTime`. */
  predicate Accepts(last: int, now: int)
  {
    !(now - last < InteractionThreshold)
  }

  /** The times, among `create` calls made at `ts` (by any instance), that pass the rule
      when the recorded time starts at `last`. */
  function Accepted(last: int, ts: seq<int>): seq<int>
    decreases |ts|
  {
    if ts == [] then []
    else if Accepts(last, ts[0]) then [ts[0]] + Accepted(ts[0], ts[1..])
    else Accepted(last, ts[1..])
  }

  /** `lastInteractionTime` after those calls. */
  function Latest(last: int, ts: seq<int>): int
    decreases |ts|
  {
    if ts == [] then last
    else Latest(if Accepts(last, ts[0]) then ts[0] else last, ts[1..])
  }

  /** Consecutive accepted interactions are at least the threshold apart. */
  ghost predicate Spaced(s: seq<int>)
  {
    forall i | 0 < i < |s| :: s[i - 1] + InteractionThreshold <= s[i]
  }

  /** Accepted interactions are spaced, the first is a full threshold after the starting
      value, and the recorded time is the last accepted one. This holds whatever order the
      clock readings come in, since a reading earlier than the recorded time is refused. */
  lemma {:induction false} AcceptedSpaced(last: int, ts: seq<int>)
    ensures Spaced(Accepted(last, ts))
    ensures Accepted(last, ts) != [] ==> last + InteractionThreshold <= Accepted(last, ts)[0]
    ensures Accepted(last, ts) == [] ==> Latest(last, ts) == last
    ensures Accepted(last, ts) != [] ==> Latest(last, ts) == Accepted(last, ts)[|Accepted(last, ts)| - 1]
    decreases |ts|
  {
    if ts != [] {
      if Accepts(last, ts[0]) {
        AcceptedSpaced(ts[0], ts[1..]);
      } else {
        AcceptedSpaced(last, ts[1..]);
      }
    }
  }

  /** One more call extends the history exactly as the rule says, judged against the recorded time. */
  lemma {:induction false} AcceptedSnoc(last: int, ts: seq<int>, t: int)
    ensures Accepted(last, ts + [t]) == Accepted(last, ts) + (if Accepts(Latest(last, ts), t) then [t] else [])
    ensures Latest(last, ts + [t]) == if Accepts(Latest(last, ts), t) then t else Latest(last, ts)
    decreases |ts|
  {
    if ts == [] {
      assert [] + [t] == [t];
    } else {
      assert (ts + [t])[0] == ts[0];
      assert (ts + [t])[1..] == ts[1..] + [t];
      var next := if Accepts(last, ts[0]) then ts[0] else last;
      AcceptedSnoc(next, ts[1..], t);
    }
  }

  /** Any two accepted interactions, not only neighbours, are a threshold apart per step between them. */
  lemma {:induction false} SpacedApart(s: seq<int>, i: int, j: int)
    requires Spaced(s)
    requires 0 <= i < j < |s|
    ensures s[i] + InteractionThreshold * (j - i) <= s[j]
    decreases j - i
  {
    if j > i + 1 {
      SpacedApart(s, i, j - 1);
    }
  }

  /** Only times at which a call was made are ever accepted. */
  lemma {:induction false} AcceptedFromCalls(last: int, ts: seq<int>)
    ensures forall t :: t in Accepted(last, ts) ==> t in ts
    ensures |Accepted(last, ts)| <= |ts|
    decreases |ts|
  {
    if ts != [] {
      if Accepts(last, ts[0]) {
        AcceptedFromCalls(ts[0], ts[1..]);
      } else {
        AcceptedFromCalls(last, ts[1..]);
      }
    }
  }

  /** A touchstart and its synthesized mousedown less than 100 ms later yield one accepted interaction. */
  lemma DuplicatePairSuppressed(last: int, t: int, t': int)
    requires Accepts(last, t)
    requires t' < t + InteractionThreshold
    ensures Accepted(last, [t, t']) == [t]
  {
    assert [t, t'][1..] == [t'];
    assert [t'][1..] == [];
    assert !Accepts(t, t');
    assert Accepted(t, [t']) == [];
  }
}
