/** Choosing the quality level of a picture, falling back when it fails, and restoring after a lost service. */
module DetailLevels {
  import opened Basics

  const NONE := 0
  const HIGH := 3
  const HIGH_AISR := 4

  /** How an algorithm takes one picture. `Refused`: its SetParameter fails. `Forgotten`: the service no longer
      knows this client. */
  datatype Answer = Refused | Done | Failed | Forgotten

  /** `creatable`: the extension exists, initialises and accepts the protection setting. */
  datatype Response = Response(creatable: bool, answer: Answer)

  /** What one pass over the levels meets. `unscaled`: both ratios are 1; `shrinks`: both are below 1 and round
      alike; `copies`: the plain copy succeeds; `at`: one response for each level. */
  datatype World = World(valid: bool, unscaled: bool, shrinks: bool, copies: bool, at: seq<Response>)

  /** `level` is the parameter last set; `loaded` the levels with an algorithm. */
  datatype Enhancer = Enhancer(level: nat, loaded: set<nat>, last: Option<nat>, needRestore: bool)

  /** `Blocked` is no error code: the call waits for a lock that it holds itself. */
  datatype Code = Ok | Unknown | InvalidVal | Blocked

  predicate WellFormed(s: Enhancer) {
    s.level <= HIGH
  }

  predicate Complete(w: World) {
    |w.at| == HIGH_AISR + 1
  }

  function TargetLevel(level: nat, shrinks: bool): (target: nat)
    requires level <= HIGH
    ensures level <= target <= HIGH_AISR
  {
    if level == HIGH then (if shrinks then HIGH else HIGH_AISR) else level
  }

  /** The parameter names no AISR level. */
  function Named(level: nat): nat {
    if level == HIGH_AISR then HIGH else level
  }

  predicate Available(s: Enhancer, at: seq<Response>, level: nat)
    requires level < |at|
  {
    level in s.loaded || at[level].creatable
  }

  function Take(s: Enhancer, level: nat): Enhancer {
    s.(level := Named(level), loaded := s.loaded + {level})
  }

  /** `restoring`: Process holds the restore lock around this pass. */
  function TryLevels(s: Enhancer, at: seq<Response>, level: int, restoring: bool): (Enhancer, Code)
    requires -1 <= level < |at|
    decreases level + 1
  {
    if level < NONE then (s, InvalidVal)
    else if !Available(s, at, level) then TryLevels(s, at, level - 1, restoring)
    else
      var t := Take(s, level);
      match at[level].answer
      case Refused => (t, Unknown)
      case Done => (t.(last := Some(level)), Ok)
      case Forgotten =>
        if restoring then (t.(last := Some(level)), Blocked)
        else if level == NONE then (t.(last := Some(level), needRestore := true), Unknown)
        else TryLevels(t.(last := Some(level), needRestore := true), at, level - 1, restoring)
      case Failed =>
        if level == NONE then (t.(last := Some(level)), Unknown)
        else TryLevels(t.(last := Some(level)), at, level - 1, restoring)
  }

  function Pass(s: Enhancer, w: World, restoring: bool): (Enhancer, Code)
    requires WellFormed(s) && Complete(w)
  {
    var target := TargetLevel(s.level, w.shrinks);
    if !w.valid then (s, InvalidVal)
    else if target < HIGH_AISR && w.unscaled then (s, if w.copies then Ok else Unknown)
    else TryLevels(s, w.at, target, restoring)
  }

  function Clear(s: Enhancer): Enhancer {
    s.(last := None, loaded := {})
  }

  /** A failed pass is repeated once, from scratch, when any pass so far found the client forgotten. */
  function Process(s: Enhancer, first: World, again: World): (Enhancer, Code)
    requires WellFormed(s) && Complete(first) && Complete(again)
  {
    PassKeepsForm(s, first, false);
    var (t, code) := Pass(s, first, false);
    if code == Ok || !t.needRestore then (t, code) else Pass(Clear(t).(needRestore := false), again, true)
  }

  /** The pass goes past this level. */
  predicate Skipped(s: Enhancer, at: seq<Response>, restoring: bool, level: nat)
    requires level < |at|
  {
    !Available(s, at, level) || at[level].answer == Failed || (at[level].answer == Forgotten && !restoring)
  }

  predicate SkippedAbove(s: Enhancer, at: seq<Response>, restoring: bool, low: int, top: int)
    requires top < |at|
  {
    forall l: nat | low < l <= top :: Skipped(s, at, restoring, l)
  }

  /** This level ends the pass: it is the highest one, from the top, that is not skipped. */
  predicate Decides(s: Enhancer, at: seq<Response>, restoring: bool, top: int, level: nat)
    requires top < |at|
  {
    level <= top && !Skipped(s, at, restoring, level) && SkippedAbove(s, at, restoring, level, top)
  }

  function CodeOf(answer: Answer): Code {
    match answer
    case Done => Ok
    case Forgotten => Blocked
    case Refused => Unknown
    case Failed => Unknown
  }

  lemma PassKeepsForm(s: Enhancer, w: World, restoring: bool)
    requires WellFormed(s) && Complete(w)
    ensures WellFormed(Pass(s, w, restoring).0)
    ensures Pass(s, w, restoring).0.level <= s.level
  {
    LevelsOnlyFall(s, w.at, TargetLevel(s.level, w.shrinks), restoring);
  }

  lemma {:induction false} LevelsOnlyFall(s: Enhancer, at: seq<Response>, level: int, restoring: bool)
    requires -1 <= level <= HIGH_AISR && level < |at|
    ensures var t := TryLevels(s, at, level, restoring).0; t == s || (level >= NONE && t.level <= Named(level))
    decreases level + 1
  {
    if level >= NONE {
      if !Available(s, at, level) {
        LevelsOnlyFall(s, at, level - 1, restoring);
      } else if level > NONE {
        var t := Take(s, level).(last := Some(level));
        LevelsOnlyFall(t, at, level - 1, restoring);
        LevelsOnlyFall(t.(needRestore := true), at, level - 1, restoring);
      }
    }
  }

  /** What a skipped level leaves behind. */
  function Past(s: Enhancer, at: seq<Response>, level: nat): Enhancer
    requires level < |at|
  {
    if !Available(s, at, level) then s
    else Take(s, level).(last := Some(level), needRestore := s.needRestore || at[level].answer == Forgotten)
  }

  lemma SkipOne(s: Enhancer, at: seq<Response>, top: nat, restoring: bool)
    requires top < |at| && Skipped(s, at, restoring, top)
    ensures TryLevels(s, at, top, restoring)
         == if top > NONE then TryLevels(Past(s, at, top), at, top - 1, restoring)
            else (Past(s, at, top), if Available(s, at, NONE) then Unknown else InvalidVal)
  {
  }

  /** The pass asks this level's algorithm: it is there and every level above it was skipped. */
  predicate Tried(s: Enhancer, at: seq<Response>, restoring: bool, top: int, level: nat)
    requires top < |at|
  {
    level <= top && Available(s, at, level) && SkippedAbove(s, at, restoring, level, top)
  }

  predicate LowestTried(s: Enhancer, at: seq<Response>, restoring: bool, top: int, level: nat)
    requires top < |at|
  {
    Tried(s, at, restoring, top, level) && forall l: nat | l < level :: !Tried(s, at, restoring, top, l)
  }

  /** A skipped level changes nothing for the levels below it. */
  lemma SameBelow(s: Enhancer, at: seq<Response>, top: nat, restoring: bool, l: nat)
    requires l < top < |at|
    ensures Skipped(s, at, restoring, l) == Skipped(Past(s, at, top), at, restoring, l)
    ensures Available(s, at, l) == Available(Past(s, at, top), at, l)
  {
  }

  lemma DecidesBelow(s: Enhancer, at: seq<Response>, top: nat, restoring: bool, l: nat)
    requires l < top < |at|
    ensures Decides(s, at, restoring, top - 1, l) <==> Decides(Past(s, at, top), at, restoring, top - 1, l)
  {
    forall k: nat | k < top
      ensures Skipped(s, at, restoring, k) == Skipped(Past(s, at, top), at, restoring, k)
    {
      SameBelow(s, at, top, restoring, k);
    }
  }

  lemma TriedBelow(s: Enhancer, at: seq<Response>, top: nat, restoring: bool, l: nat)
    requires l < top < |at| && Skipped(s, at, restoring, top)
    ensures Tried(s, at, restoring, top, l) <==> Tried(Past(s, at, top), at, restoring, top - 1, l)
  {
    SameBelow(s, at, top, restoring, l);
    forall k: nat | l < k < top
      ensures Skipped(s, at, restoring, k) == Skipped(Past(s, at, top), at, restoring, k)
    {
      SameBelow(s, at, top, restoring, k);
    }
    if Tried(Past(s, at, top), at, restoring, top - 1, l) {
      forall k: nat | l < k <= top
        ensures Skipped(s, at, restoring, k)
      {
      }
    }
  }

  /** The level that decides fixes the outcome: code, parameter and algorithm. */
  lemma {:induction false} HighestLevelDecides(s: Enhancer, at: seq<Response>, top: int, restoring: bool, level: nat)
    requires -1 <= top < |at| && Decides(s, at, restoring, top, level)
    ensures var (t, code) := TryLevels(s, at, top, restoring);
            && code == CodeOf(at[level].answer) && t.level == Named(level)
            && (code == Ok ==> t.last == Some(level) && level in t.loaded)
    decreases top + 1
  {
    if level < top {
      assert Skipped(s, at, restoring, top);
      SkipOne(s, at, top, restoring);
      assert Decides(s, at, restoring, top - 1, level);
      DecidesBelow(s, at, top, restoring, level);
      HighestLevelDecides(Past(s, at, top), at, top - 1, restoring, level);
    }
  }

  lemma SkippedBelow(s: Enhancer, at: seq<Response>, top: nat, restoring: bool)
    requires top < |at| && SkippedAbove(s, at, restoring, -1, top)
    ensures Skipped(s, at, restoring, top) && SkippedAbove(Past(s, at, top), at, restoring, -1, top - 1)
  {
    forall l: nat | l < top
      ensures Skipped(Past(s, at, top), at, restoring, l)
    {
      assert Skipped(s, at, restoring, l);
      SameBelow(s, at, top, restoring, l);
    }
  }

  /** When every level is skipped the code says whether the lowest one was tried at all. */
  lemma {:induction false} NothingDecides(s: Enhancer, at: seq<Response>, top: int, restoring: bool)
    requires -1 <= top < |at| && SkippedAbove(s, at, restoring, -1, top)
    ensures TryLevels(s, at, top, restoring).1 == if top >= NONE && Available(s, at, NONE) then Unknown else InvalidVal
    decreases top + 1
  {
    if top >= NONE {
      SkippedBelow(s, at, top, restoring);
      SkipOne(s, at, top, restoring);
      NothingDecides(Past(s, at, top), at, top - 1, restoring);
    }
  }

  /** A pass that tries no level changes nothing. */
  lemma {:induction false} NoneTried(s: Enhancer, at: seq<Response>, top: int, restoring: bool)
    requires -1 <= top < |at| && forall l: nat :: !Tried(s, at, restoring, top, l)
    ensures TryLevels(s, at, top, restoring) == (s, InvalidVal)
    decreases top + 1
  {
    if top >= NONE {
      var below := top - 1;
      assert !Tried(s, at, restoring, top, top);
      forall l: nat
        ensures !Tried(s, at, restoring, below, l)
      {
        if l < top {
          TriedBelow(s, at, top, restoring, l);
        }
      }
      NoneTried(s, at, below, restoring);
    }
  }

  /** Otherwise the parameter is left at the lowest level that was tried. */
  lemma {:induction false} LeftIs(s: Enhancer, at: seq<Response>, top: int, restoring: bool, level: nat)
    requires -1 <= top < |at| && LowestTried(s, at, restoring, top, level)
    ensures TryLevels(s, at, top, restoring).0.level == Named(level)
    decreases top + 1
  {
    if Skipped(s, at, restoring, top) {
      var t, below := Past(s, at, top), top - 1;
      SkipOne(s, at, top, restoring);
      forall l: nat
        ensures Tried(t, at, restoring, below, l) <==> l < top && Tried(s, at, restoring, top, l)
      {
        if l < top {
          TriedBelow(s, at, top, restoring, l);
        }
      }
      if level < top {
        LeftIs(t, at, below, restoring, level);
      } else if top > NONE {
        NoneTried(t, at, below, restoring);
      }
    } else {
      assert Tried(s, at, restoring, top, top);
    }
  }

  /** A pass leaves the flag set exactly when it was set before or a level that was tried found its client
      forgotten. */
  lemma {:induction false} NotedIff(s: Enhancer, at: seq<Response>, top: int)
    requires -1 <= top < |at|
    ensures TryLevels(s, at, top, false).0.needRestore <==>
              s.needRestore || exists l: nat :: Tried(s, at, false, top, l) && at[l].answer == Forgotten
    decreases top + 1
  {
    if top >= NONE {
      if Skipped(s, at, false, top) {
        var t := Past(s, at, top);
        SkipOne(s, at, top, false);
        NotedIff(t, at, top - 1);
        forall l: nat | l < top
          ensures Tried(s, at, false, top, l) <==> Tried(t, at, false, top - 1, l)
        {
          TriedBelow(s, at, top, false, l);
        }
        assert Tried(s, at, false, top, top) <==> Available(s, at, top);
      } else {
        assert forall l: nat | Tried(s, at, false, top, l) :: l == top;
      }
    }
  }

  /** A pass loads the algorithms of exactly the levels it tries, and no others. */
  lemma {:induction false} LoadsTried(s: Enhancer, at: seq<Response>, top: int, restoring: bool, l: nat)
    requires -1 <= top < |at|
    ensures l in TryLevels(s, at, top, restoring).0.loaded <==> l in s.loaded || Tried(s, at, restoring, top, l)
    decreases top + 1
  {
    if top >= NONE && Skipped(s, at, restoring, top) {
      var t, below := Past(s, at, top), top - 1;
      SkipOne(s, at, top, restoring);
      LoadsTried(t, at, below, restoring, l);
      if l < top {
        TriedBelow(s, at, top, restoring, l);
      }
    }
  }

  /** This level has worked on the picture, whatever came of it. */
  predicate Asked(s: Enhancer, at: seq<Response>, restoring: bool, top: int, level: nat)
    requires top < |at|
  {
    Tried(s, at, restoring, top, level) && at[level].answer != Refused
  }

  /** The algorithm remembered as the last one is that of the lowest level that worked on the picture. */
  lemma {:induction false} LastIs(s: Enhancer, at: seq<Response>, top: int, restoring: bool)
    requires -1 <= top < |at|
    ensures var last := TryLevels(s, at, top, restoring).0.last;
            if exists l: nat :: Asked(s, at, restoring, top, l) then
              last.Some? && Asked(s, at, restoring, top, last.value)
              && forall l: nat | Asked(s, at, restoring, top, l) :: last.value <= l
            else last == s.last
    decreases top + 1
  {
    if top >= NONE {
      if Skipped(s, at, restoring, top) {
        var t, below := Past(s, at, top), top - 1;
        SkipOne(s, at, top, restoring);
        LastIs(t, at, below, restoring);
        forall l: nat | l < top
          ensures Asked(t, at, restoring, below, l) <==> Asked(s, at, restoring, top, l)
        {
          TriedBelow(s, at, top, restoring, l);
        }
        assert Asked(s, at, restoring, top, top) <==> Available(s, at, top);
      } else {
        forall l: nat | Asked(s, at, restoring, top, l)
          ensures l == top && at[top].answer != Refused
        {
          assert Tried(s, at, restoring, top, l);
        }
        assert Asked(s, at, restoring, top, top) <==> at[top].answer != Refused;
      }
    }
  }

  lemma {:induction false} DecidedOrSkipped(s: Enhancer, at: seq<Response>, top: int, restoring: bool) returns (l: int)
    requires -1 <= top < |at|
    ensures l < 0 ==> SkippedAbove(s, at, restoring, -1, top)
    ensures l >= 0 ==> Decides(s, at, restoring, top, l)
    decreases top + 1
  {
    l := -1;
    if top >= NONE {
      if Skipped(s, at, restoring, top) {
        l := DecidedOrSkipped(s, at, top - 1, restoring);
      } else {
        l := top;
      }
    }
  }

  /** A pass succeeds exactly when the highest level that is neither missing nor failing does its work, and
      blocks exactly when, during a restore, that level finds the client forgotten once more. */
  lemma OutcomeIff(s: Enhancer, at: seq<Response>, top: int, restoring: bool)
    requires -1 <= top < |at|
    ensures TryLevels(s, at, top, restoring).1 == Ok <==>
              exists l: nat :: Decides(s, at, restoring, top, l) && at[l].answer == Done
    ensures TryLevels(s, at, top, restoring).1 == Blocked <==>
              exists l: nat :: Decides(s, at, restoring, top, l) && at[l].answer == Forgotten
  {
    var level := DecidedOrSkipped(s, at, top, restoring);
    if level < 0 {
      NothingDecides(s, at, top, restoring);
      assert forall l: nat | l <= top :: Skipped(s, at, restoring, l);
    } else {
      forall l: nat | Decides(s, at, restoring, top, l)
        ensures TryLevels(s, at, top, restoring).1 == CodeOf(at[l].answer)
      {
        HighestLevelDecides(s, at, top, restoring, l);
      }
    }
  }

  /** The picture is valid and is not merely copied: the pass goes over the levels. */
  predicate Runs(s: Enhancer, w: World)
    requires WellFormed(s)
  {
    w.valid && (TargetLevel(s.level, w.shrinks) == HIGH_AISR || !w.unscaled)
  }

  /** A first pass asks this level. */
  predicate TriedIn(s: Enhancer, w: World, level: nat)
    requires WellFormed(s) && Complete(w)
  {
    Runs(s, w) && Tried(s, w.at, false, TargetLevel(s.level, w.shrinks), level)
  }

  /** A first pass gives the picture, by a plain copy or at some level. */
  ghost predicate Succeeds(s: Enhancer, w: World)
    requires WellFormed(s) && Complete(w)
  {
    if Runs(s, w) then
      exists l: nat :: Decides(s, w.at, false, TargetLevel(s.level, w.shrinks), l) && w.at[l].answer == Done
    else w.valid && w.copies
  }

  /** The first pass fails, and it or an earlier one found a client forgotten. */
  ghost predicate Restores(s: Enhancer, w: World)
    requires WellFormed(s) && Complete(w)
  {
    !Succeeds(s, w) && (s.needRestore || exists l: nat :: TriedIn(s, w, l) && w.at[l].answer == Forgotten)
  }

  /** The first pass leaves this parameter: the lowest level it tried, or the old one when it tried none. */
  ghost predicate Leaves(s: Enhancer, w: World, level: nat)
    requires WellFormed(s) && Complete(w)
  {
    if exists l: nat :: TriedIn(s, w, l) then
      exists l: nat :: TriedIn(s, w, l) && level == Named(l) && forall k: nat | k < l :: !TriedIn(s, w, k)
    else level == s.level
  }

  /** Which level a first pass begins with: the one that is set, and for HIGH, unless both sides shrink alike, the
      AISR level. Below AISR an unscaled picture is merely copied. */
  lemma TopLevel(s: Enhancer, w: World)
    requires WellFormed(s) && Complete(w)
    ensures var top := if s.level == 3 && !w.shrinks then 4 else s.level;
            && (forall l: nat | TriedIn(s, w, l) :: l <= top)
            && (w.valid && (top == 4 || !w.unscaled) && (top in s.loaded || w.at[top].creatable) ==> TriedIn(s, w, top))
            && (!w.valid ==> Pass(s, w, false) == (s, InvalidVal))
            && (w.valid && top < 4 && w.unscaled ==> Pass(s, w, false) == (s, if w.copies then Ok else Unknown))
  {
  }

  lemma {:induction false} FindLowest(s: Enhancer, w: World, l: nat) returns (lowest: nat)
    requires WellFormed(s) && Complete(w) && TriedIn(s, w, l)
    ensures TriedIn(s, w, lowest) && forall k: nat | k < lowest :: !TriedIn(s, w, k)
  {
    if k: nat :| k < l && TriedIn(s, w, k) {
      lowest := FindLowest(s, w, k);
    } else {
      lowest := l;
    }
  }

  /** What a first pass leaves: its code, the flag and the parameter. */
  lemma FirstPass(s: Enhancer, w: World)
    requires WellFormed(s) && Complete(w)
    ensures var (t, code) := Pass(s, w, false);
            && code != Blocked && (code == Ok <==> Succeeds(s, w))
            && (code != Ok && t.needRestore <==> Restores(s, w))
            && t.level <= HIGH && forall level: nat :: Leaves(s, w, level) <==> level == t.level
  {
    PassKeepsForm(s, w, false);
    if Runs(s, w) {
      var target := TargetLevel(s.level, w.shrinks);
      OutcomeIff(s, w.at, target, false);
      assert forall l: nat | Decides(s, w.at, false, target, l) :: w.at[l].answer != Forgotten;
      NotedIff(s, w.at, target);
      assert forall l: nat :: TriedIn(s, w, l) <==> Tried(s, w.at, false, target, l);
      if l: nat :| TriedIn(s, w, l) {
        var lowest := FindLowest(s, w, l);
        LeftIs(s, w.at, target, false, lowest);
      } else {
        NoneTried(s, w.at, target, false);
      }
    }
  }

  /** The second pass of a restore starts at the lowest level that the first one tried, with nothing else kept. */
  lemma RestoreStartsAtLowest(s: Enhancer, first: World, again: World, level: nat)
    requires WellFormed(s) && Complete(first) && Complete(again)
    requires Restores(s, first) && Leaves(s, first, level)
    ensures level <= HIGH && Process(s, first, again) == Pass(Enhancer(level, {}, None, false), again, true)
  {
    FirstPass(s, first);
  }

  /** Otherwise the first pass is all there is. */
  lemma NothingRepeated(s: Enhancer, first: World, again: World)
    requires WellFormed(s) && Complete(first) && Complete(again) && !Restores(s, first)
    ensures Process(s, first, again) == Pass(s, first, false)
  {
    FirstPass(s, first);
  }

  /** A pass under the restore lock comes to a level that finds its client forgotten, and asks for that lock. */
  ghost predicate Locks(s: Enhancer, w: World)
    requires WellFormed(s) && Complete(w)
  {
    Runs(s, w)
    && exists l: nat :: Decides(s, w.at, true, TargetLevel(s.level, w.shrinks), l) && w.at[l].answer == Forgotten
  }

  /** A picture blocks for ever exactly when it is restored and the first level of the second pass that is
      there and does not fail finds its client forgotten again. */
  lemma ProcessBlocksIff(s: Enhancer, first: World, again: World, level: nat)
    requires WellFormed(s) && Complete(first) && Complete(again) && Leaves(s, first, level)
    ensures level <= HIGH
    ensures Process(s, first, again).1 == Blocked <==>
              Restores(s, first) && Locks(Enhancer(level, {}, None, false), again)
  {
    FirstPass(s, first);
    if Restores(s, first) {
      RestoreStartsAtLowest(s, first, again, level);
      OutcomeIff(Enhancer(level, {}, None, false), again.at, TargetLevel(level, again.shrinks), true);
    }
  }

  /** The service is there, and forgets its client at every level. */
  predicate Forgetful(w: World) {
    w.valid && !w.unscaled && Complete(w) && forall r | r in w.at :: r == Response(true, Forgotten)
  }

  /** A service that stays so for the second pass blocks every picture that is not copied, whatever came before. */
  lemma LostTwiceBlocks(s: Enhancer, first: World, again: World)
    requires WellFormed(s) && Forgetful(first) && Forgetful(again)
    ensures Process(s, first, again).1 == Blocked
  {
    var target := TargetLevel(s.level, first.shrinks);
    forall l: nat | l <= HIGH_AISR
      ensures first.at[l] == again.at[l] == Response(true, Forgotten)
    {
      assert first.at[l] in first.at && again.at[l] in again.at;
    }
    assert Tried(s, first.at, false, target, NONE);
    assert TriedIn(s, first, NONE) && Leaves(s, first, NONE);
    var u := Enhancer(NONE, {}, None, false);
    assert Decides(u, again.at, true, NONE, NONE);
    ProcessBlocksIff(s, first, again, NONE);
  }

  /** The service is back: every level can be created and does its work. */
  predicate Healthy(w: World) {
    w.valid && !w.unscaled && Complete(w) && forall r | r in w.at :: r == Response(true, Done)
  }

  /** With the service fully back, the repeated picture and all later ones get the level that was asked for
      exactly when the first pass tried no lower one. */
  lemma RestoreKeepsLevelIff(s: Enhancer, first: World, again: World)
    requires WellFormed(s) && Complete(first) && Restores(s, first) && Healthy(again)
    ensures var (t, code) := Process(s, first, again);
            var kept := forall l: nat | TriedIn(s, first, l) :: l >= s.level;
            && code == Ok
            && (t.last == Some(TargetLevel(s.level, again.shrinks)) <==> kept)
            && (t.level == s.level <==> kept)
  {
    FirstPass(s, first);
    var left := Pass(s, first, false).0.level;
    assert Leaves(s, first, left);
    RestoreStartsAtLowest(s, first, again, left);
    var cleared := Enhancer(left, {}, None, false);
    var target := TargetLevel(left, again.shrinks);
    assert again.at[target] in again.at;
    assert Decides(cleared, again.at, true, target, target);
    HighestLevelDecides(cleared, again.at, target, true, target);
  }

  /** Pictures processed one after the other without a new parameter. */
  function ProcessAll(s: Enhancer, worlds: seq<(World, World)>): Enhancer
    requires WellFormed(s) && forall w | w in worlds :: Complete(w.0) && Complete(w.1)
  {
    if worlds == [] then s
    else
      var w := worlds[|worlds| - 1];
      assert w in worlds;
      var before := ProcessAll(s, worlds[..|worlds| - 1]);
      if WellFormed(before) then Process(before, w.0, w.1).0 else before
  }

  /** The level never rises again: one failure at a level moves every later picture below it. */
  lemma {:induction false} LevelNeverRises(s: Enhancer, worlds: seq<(World, World)>)
    requires WellFormed(s) && forall w | w in worlds :: Complete(w.0) && Complete(w.1)
    ensures ProcessAll(s, worlds).level <= s.level
  {
    if worlds != [] {
      LevelNeverRises(s, worlds[..|worlds| - 1]);
      var before, w := ProcessAll(s, worlds[..|worlds| - 1]), worlds[|worlds| - 1];
      assert w in worlds;
      PassKeepsForm(before, w.0, false);
      var t := Pass(before, w.0, false).0;
      PassKeepsForm(Clear(t).(needRestore := false), w.1, true);
    }
  }
}

/** The object that processes pictures. */
module DetailEnhancer {
  import opened Basics
  import opened DetailLevels

  const MAX_URL_LENGTH := 100

  class DetailEnhancerImageFwk {
    var level: nat
    var algorithms: set<nat>
    var lastAlgorithm: Option<nat>
    var needRestore: bool

    ghost predicate Valid()
      reads this
    {
      level <= HIGH
    }

    function View(): Enhancer
      reads this
    {
      Enhancer(level, algorithms, lastAlgorithm, needRestore)
    }

    constructor ()
      ensures Valid() && View() == Enhancer(1, {}, None, false)
    {
      level, algorithms, lastAlgorithm, needRestore := 1, {}, None, false;
    }

    /** The only way to raise the level again. */
    method SetParameter(newLevel: int, uriLength: nat) returns (code: Code)
      requires Valid()
      modifies this
      ensures Valid()
      ensures code == if NONE <= newLevel <= HIGH && uriLength < MAX_URL_LENGTH then Ok else InvalidVal
      ensures View() == if code == Ok then old(View()).(level := newLevel) else old(View())
    {
      if newLevel < NONE || newLevel > HIGH || uriLength >= MAX_URL_LENGTH {
        return InvalidVal;
      }
      level := newLevel;
      return Ok;
    }

    method GetAlgorithm(wanted: nat, at: seq<Response>) returns (found: bool)
      requires wanted < |at|
      modifies `algorithms
      ensures found == Available(old(View()), at, wanted)
      ensures algorithms == if found then old(algorithms) + {wanted} else old(algorithms)
    {
      if wanted in algorithms {
        return true;
      }
      if !at[wanted].creatable {
        return false;
      }
      algorithms := algorithms + {wanted};
      return true;
    }

    method Clear()
      modifies this
      ensures View() == DetailLevels.Clear(old(View()))
    {
      lastAlgorithm := None;
      algorithms := {};
    }

    /** The loop over the levels, best first. */
    method TryFrom(target: nat, at: seq<Response>, restoring: bool) returns (code: Code)
      requires target < |at|
      modifies this
      ensures (View(), code) == TryLevels(old(View()), at, target, restoring)
    {
      var current: int := target;
      while current >= NONE
        invariant -1 <= current <= target
        invariant TryLevels(View(), at, current, restoring) == TryLevels(old(View()), at, target, restoring)
      {
        var found := GetAlgorithm(current, at);
        if found {
          level := Named(current);
          if at[current].answer == Refused {
            return Unknown;
          }
          lastAlgorithm := Some(current);
          if at[current].answer == Done {
            return Ok;
          }
          if at[current].answer == Forgotten {
            if restoring {
              return Blocked;
            }
            needRestore := true;
          }
          if current == NONE {
            return Unknown;
          }
        }
        current := current - 1;
      }
      return InvalidVal;
    }

    method DoProcess(w: World, restoring: bool) returns (code: Code)
      requires Valid() && Complete(w)
      modifies this
      ensures Valid() && (View(), code) == Pass(old(View()), w, restoring)
    {
      PassKeepsForm(View(), w, restoring);
      if !w.valid {
        return InvalidVal;
      }
      var target := TargetLevel(level, w.shrinks);
      if target < HIGH_AISR && w.unscaled {
        return if w.copies then Ok else Unknown;
      }
      code := TryFrom(target, w.at, restoring);
    }

    method Process(first: World, again: World) returns (code: Code)
      requires Valid() && Complete(first) && Complete(again)
      modifies this
      ensures Valid() && (View(), code) == DetailLevels.Process(old(View()), first, again)
    {
      code := DoProcess(first, false);
      if code != Ok {
        if !needRestore {
          return;
        }
        Clear();
        needRestore := false;
        code := DoProcess(again, true);
      }
    }
  }
}
