/** The configuration of the `IRMReactor` cyclus archetype: its defaults
    and the consistency check `EnterNotify` runs on the parallel lists that
    describe recipe and preference changes. The reactor's operation (tick,
    tock and trading) is commented out in the source and not modelled. */
module Irm {
  import opened Wrappers
  import Decimal
  import Gpr

  const PowerName: string := "power"

  const RecipeChangeCommodsName: string := "recipe_change_commods"
  const RecipeChangeInName: string := "recipe_change_in"
  const RecipeChangeOutName: string := "recipe_change_out"
  const PrefChangeCommodsName: string := "pref_change_commods"
  const PrefChangeValuesName: string := "pref_change_values"

  /** One length check: the list `name` has `count` entries where
      `expected` are needed. */
  datatype Check = Check(name: string, count: nat, expected: nat)

  /** The error line for one mismatched list. */
  function Line(prototype: string, c: Check): (s: string)
    ensures |s| > 0 && s[|s| - 1] == '\n'
  {
    "prototype '" + prototype + "' has " + Decimal.NatToString(c.count) + " " + c.name +
    " vals, expected " + Decimal.NatToString(c.expected) + "\n"
  }

  /** The lines of the failed checks, in order. */
  function Lines(prototype: string, checks: seq<Check>): (lines: seq<string>)
    ensures |lines| <= |checks|
    ensures |lines| == 0 <==> forall i :: 0 <= i < |checks| ==> checks[i].count == checks[i].expected
  {
    if checks == [] then []
    else
      Lines(prototype, checks[..|checks| - 1]) +
      (var c := checks[|checks| - 1]; if c.count != c.expected then [Line(prototype, c)] else [])
  }

  /** The lines written one after the other. */
  function Join(lines: seq<string>): string {
    if lines == [] then [] else Join(lines[..|lines| - 1]) + lines[|lines| - 1]
  }

  /** Lines that each end in a newline join to the empty string only when
      there are none, and the joined text holds one newline-terminated line
      per entry. */
  lemma {:induction false} JoinEmpty(lines: seq<string>)
    requires forall i :: 0 <= i < |lines| ==> |lines[i]| > 0
    ensures Join(lines) == [] <==> lines == []
    ensures |Join(lines)| >= |lines|
  {
    if lines != [] {
      JoinEmpty(lines[..|lines| - 1]);
    }
  }

  /** Appending a line appends its text. */
  lemma JoinSnoc(lines: seq<string>, line: string)
    ensures Join(lines + [line]) == Join(lines) + line
  {
    assert (lines + [line])[..|lines|] == lines;
  }

  /** Appending a check appends its line when it fails. */
  lemma LinesSnoc(prototype: string, checks: seq<Check>, c: Check)
    ensures Lines(prototype, checks + [c]) ==
            Lines(prototype, checks) + if c.count != c.expected then [Line(prototype, c)] else []
  {
    assert (checks + [c])[..|checks|] == checks;
  }

  /** The positions of the failed checks. */
  function Failed(checks: seq<Check>): set<nat> {
    set i: nat | i < |checks| && checks[i].count != checks[i].expected
  }

  /** Appending a check adds its position exactly when it fails. */
  lemma FailedSnoc(checks: seq<Check>)
    requires checks != []
    ensures var k := |checks| - 1;
            k !in Failed(checks[..k]) &&
            Failed(checks) == Failed(checks[..k]) + if checks[k].count != checks[k].expected then {k} else {}
  {
  }

  /** Every failed check has its own line: the number of lines is the
      number of mismatched lists, and each line is a non-empty one. */
  lemma {:induction false} LinesCount(prototype: string, checks: seq<Check>)
    ensures |Lines(prototype, checks)| == |Failed(checks)|
    ensures forall i :: 0 <= i < |Lines(prototype, checks)| ==> |Lines(prototype, checks)[i]| > 0
  {
    if checks != [] {
      LinesCount(prototype, checks[..|checks| - 1]);
      FailedSnoc(checks);
    }
  }

  class IrmReactor {
    var prototype: string
    var assemSize: real
    var nAssemBatch: int
    var nAssemCore: int
    var nAssemFresh: int
    var nAssemSpent: int
    var cycleTime: int
    var refuelTime: int
    var cycleStep: int
    var powerCap: real
    var powerName: string
    var latitude: real
    var longitude: real

    var fuelOutcommods: seq<string>
    var fuelPrefs: seq<real>
    var sideProducts: seq<string>
    var isHybrid: bool

    var recipeChangeTimes: seq<int>
    var recipeChangeCommods: seq<string>
    var recipeChangeIn: seq<string>
    var recipeChangeOut: seq<string>
    var prefChangeTimes: seq<int>
    var prefChangeCommods: seq<string>
    var prefChangeValues: seq<real>

    /** Every count, time, size and position starts at zero, the power
        commodity is called "power", and the lists start empty. */
    constructor (prototype: string)
      ensures this.prototype == prototype
      ensures assemSize == 0.0 && nAssemBatch == 0 && nAssemCore == 0 && nAssemFresh == 0 && nAssemSpent == 0
      ensures cycleTime == 0 && refuelTime == 0 && cycleStep == 0 && powerCap == 0.0
      ensures powerName == PowerName && latitude == 0.0 && longitude == 0.0
      ensures fuelOutcommods == [] && fuelPrefs == [] && sideProducts == []
      ensures recipeChangeTimes == [] && recipeChangeCommods == [] && recipeChangeIn == [] && recipeChangeOut == []
      ensures prefChangeTimes == [] && prefChangeCommods == [] && prefChangeValues == []
    {
      this.prototype := prototype;
      assemSize, nAssemBatch, nAssemCore, nAssemFresh, nAssemSpent := 0.0, 0, 0, 0, 0;
      cycleTime, refuelTime, cycleStep, powerCap := 0, 0, 0, 0.0;
      powerName, latitude, longitude := PowerName, 0.0, 0.0;
      fuelOutcommods, fuelPrefs, sideProducts := [], [], [];
      recipeChangeTimes, recipeChangeCommods, recipeChangeIn, recipeChangeOut := [], [], [], [];
      prefChangeTimes, prefChangeCommods, prefChangeValues := [], [], [];
    }

    /** The five length checks, in the order `EnterNotify` runs them: the
        recipe-change lists against the recipe-change times, the
        preference-change lists against the preference-change times. */
    function Checks(): (cs: seq<Check>)
      reads this
      ensures |cs| == 5
    {
      [Check(RecipeChangeCommodsName, |recipeChangeCommods|, |recipeChangeTimes|),
       Check(RecipeChangeInName, |recipeChangeIn|, |recipeChangeTimes|),
       Check(RecipeChangeOutName, |recipeChangeOut|, |recipeChangeTimes|),
       Check(PrefChangeCommodsName, |prefChangeCommods|, |prefChangeTimes|),
       Check(PrefChangeValuesName, |prefChangeValues|, |prefChangeTimes|)]
    }

    /** The change lists are consistent. */
    predicate Consistent()
      reads this
    {
      |recipeChangeCommods| == |recipeChangeTimes| && |recipeChangeIn| == |recipeChangeTimes| &&
      |recipeChangeOut| == |recipeChangeTimes| &&
      |prefChangeCommods| == |prefChangeTimes| && |prefChangeValues| == |prefChangeTimes|
    }

    /** The report is empty exactly when every change list is as long as
        its times list. */
    lemma ReportEmptyIffConsistent()
      ensures Join(Lines(prototype, Checks())) == [] <==> Consistent()
    {
      var checks := Checks();
      LinesCount(prototype, checks);
      JoinEmpty(Lines(prototype, checks));
      if Consistent() {
        forall i | 0 <= i < |checks|
          ensures checks[i].count == checks[i].expected
        {
          assert i == 0 || i == 1 || i == 2 || i == 3 || i == 4;
        }
      } else {
        assert checks[0].count != checks[0].expected || checks[1].count != checks[1].expected ||
               checks[2].count != checks[2].expected || checks[3].count != checks[3].expected ||
               checks[4].count != checks[4].expected;
      }
    }

    /** `EnterNotify`: without configured preferences every fuel
        out-commodity gets cyclus' default preference; the reactor is hybrid
        exactly when it has side products; then all five length checks run
        and, if any failed, a ValueError carries one line per failed check.
        The preferences and the hybrid flag are set even when it throws. */
    method EnterNotify() returns (r: Outcome)
      modifies this`fuelPrefs, this`isHybrid
      ensures |old(fuelPrefs)| != 0 ==> fuelPrefs == old(fuelPrefs)
      ensures |old(fuelPrefs)| == 0 ==>
                |fuelPrefs| == |fuelOutcommods| && forall i :: 0 <= i < |fuelPrefs| ==> fuelPrefs[i] == Gpr.DefaultPref
      ensures isHybrid <==> |sideProducts| != 0
      ensures r.Pass? <==> Consistent()
      ensures r.Fail? ==> r.error == ValueError(Join(Lines(prototype, Checks())))
    {
      if |fuelPrefs| == 0 {
        fuelPrefs := DefaultPrefs(|fuelOutcommods|);
      }
      isHybrid := |sideProducts| != 0;
      r := Validate();
    }

    /** The consistency check of `EnterNotify`: a ValueError with one line
        per failed length check, in check order, unless all pass. */
    method Validate() returns (r: Outcome)
      ensures r.Pass? <==> Consistent()
      ensures r.Fail? ==> r.error == ValueError(Join(Lines(prototype, Checks())))
    {
      var ss := Report(prototype, Checks());
      ReportEmptyIffConsistent();
      r := if |ss| > 0 then Fail(ValueError(ss)) else Pass;
    }
  }

  /** `n` copies of cyclus' default preference. */
  method DefaultPrefs(n: nat) returns (prefs: seq<real>)
    ensures |prefs| == n && forall j :: 0 <= j < n ==> prefs[j] == Gpr.DefaultPref
  {
    prefs := [];
    for i := 0 to n
      invariant |prefs| == i && forall j :: 0 <= j < i ==> prefs[j] == Gpr.DefaultPref
    {
      prefs := prefs + [Gpr.DefaultPref];
    }
  }

  /** The stream of `EnterNotify`: each failed check appends its line. */
  method Report(prototype: string, checks: seq<Check>) returns (ss: string)
    ensures ss == Join(Lines(prototype, checks))
  {
    ss := "";
    for i := 0 to |checks|
      invariant ss == Join(Lines(prototype, checks[..i]))
    {
      var c := checks[i];
      assert checks[..i + 1] == checks[..i] + [c];
      LinesSnoc(prototype, checks[..i], c);
      if c.count != c.expected {
        JoinSnoc(Lines(prototype, checks[..i]), Line(prototype, c));
        ss := ss + Line(prototype, c);
      } else {
        assert Lines(prototype, checks[..i + 1]) == Lines(prototype, checks[..i]);
      }
    }
    assert checks[..|checks|] == checks;
  }
}
