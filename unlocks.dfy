/** Unlock progression of the character catalog. */
module Unlocks {
  import opened Entities

  /** One catalog entry after checkUnlocks has looked at it. */
  function Unlock(c: Character, score: int): (d: Character)
    ensures d.name == c.name && d.unlockScore == c.unlockScore
    ensures d.unlocked <==> c.unlocked || c.unlockScore <= score
  {
    if !c.unlocked && score >= c.unlockScore then c.(unlocked := true) else c
  }

  /** checkUnlocks over the whole catalog, entry by entry. */
  function Unlocked(cs: seq<Character>, score: int): (r: seq<Character>)
    ensures |r| == |cs|
  {
    if cs == [] then [] else [Unlock(cs[0], score)] + Unlocked(cs[1..], score)
  }

  /** Entry k of the catalog after checkUnlocks is entry k looked at once. */
  lemma {:induction false} UnlockedAt(cs: seq<Character>, score: int, k: nat)
    requires k < |cs|
    ensures Unlocked(cs, score)[k] == Unlock(cs[k], score)
  {
    if k > 0 {
      UnlockedAt(cs[1..], score, k - 1);
    }
  }

  /** What checkUnlocks does to the catalog: no entry is ever re-locked,
      every entry whose threshold the score meets is unlocked, entries
      whose threshold is above the score keep their flag, and names and
      thresholds are untouched. */
  lemma {:induction false} UnlockedSpec(cs: seq<Character>, score: int)
    ensures var r := Unlocked(cs, score);
      && (forall k :: 0 <= k < |cs| ==>
            r[k].name == cs[k].name && r[k].unlockScore == cs[k].unlockScore)
      && (forall k :: 0 <= k < |cs| && cs[k].unlocked ==> r[k].unlocked)
      && (forall k :: 0 <= k < |cs| && score >= cs[k].unlockScore ==> r[k].unlocked)
      && (forall k :: 0 <= k < |cs| && score < cs[k].unlockScore ==> r[k].unlocked == cs[k].unlocked)
  {
    forall k | 0 <= k < |cs|
      ensures Unlocked(cs, score)[k] == Unlock(cs[k], score)
    {
      UnlockedAt(cs, score, k);
    }
  }

  /** Unlocking at a score and then at a score at least as high is the
      same as unlocking at the higher score alone; so the checkUnlocks
      calls made after each point of a frame add up to one call with the
      frame's final score. */
  lemma {:induction false} UnlockedAbsorbs(cs: seq<Character>, s1: int, s2: int)
    requires s1 <= s2
    ensures Unlocked(Unlocked(cs, s1), s2) == Unlocked(cs, s2)
  {
    if cs != [] {
      UnlockedAbsorbs(cs[1..], s1, s2);
      assert Unlocked(cs, s1)[1..] == Unlocked(cs[1..], s1);
    }
  }

  /** Running checkUnlocks twice at the same score changes nothing more. */
  lemma UnlockedIdempotent(cs: seq<Character>, score: int)
    ensures Unlocked(Unlocked(cs, score), score) == Unlocked(cs, score)
  {
    UnlockedAbsorbs(cs, score, score);
  }

  /** A higher score unlocks at least the entries a lower score does. */
  lemma UnlockedMonotone(cs: seq<Character>, s1: int, s2: int, k: nat)
    requires s1 <= s2 && k < |cs|
    requires Unlocked(cs, s1)[k].unlocked
    ensures Unlocked(cs, s2)[k].unlocked
  {
    UnlockedAbsorbs(cs, s1, s2);
    UnlockedSpec(Unlocked(cs, s1), s2);
  }

  /** The catalog after a frame whose score went from s0 to s: checkUnlocks
      was called once per point earned, so an unchanged score leaves the
      catalog as it was. */
  function UnlockedAfterGain(cs: seq<Character>, s0: nat, s: nat): seq<Character>
  {
    if s == s0 then cs else Unlocked(cs, s)
  }

  /** One more point on top of a frame's gain is one more checkUnlocks. */
  lemma UnlockedAfterPoint(cs: seq<Character>, s0: nat, s: nat)
    requires s0 <= s
    ensures Unlocked(UnlockedAfterGain(cs, s0, s), s + 1) == UnlockedAfterGain(cs, s0, s + 1)
  {
    if s != s0 {
      UnlockedAbsorbs(cs, s, s + 1);
    }
  }

  /** The Blue Bird (threshold 10) unlocks at the tenth point, not before. */
  lemma BlueBirdUnlocksAtTen()
    ensures !Unlocked(InitialCharacters, 9)[1].unlocked
    ensures Unlocked(InitialCharacters, 10)[1].unlocked
  {
    UnlockedSpec(InitialCharacters, 9);
    UnlockedSpec(InitialCharacters, 10);
  }
}
