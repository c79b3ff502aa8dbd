/** The saved-scenario store: the list of scenarios `saveScenario` appends to,
    `getScenarioById` searches and `deleteScenario` filters. Ids are built from the clock
    reading at the time of saving, which is a parameter here; writing the list to the
    browser's storage is not modelled. */
module Store {
  import opened Simulation

  datatype Option<T> = None | Some(value: T)

  function DigitChar(d: nat): char
    requires d < 10
  {
    "0123456789"[d]
  }

  /** The decimal text of `n`, as JavaScript writes a non-negative integer. */
  function Decimal(n: nat): (s: string)
    ensures |s| >= 1
    ensures n >= 10 ==> |s| >= 2
  {
    if n < 10 then [DigitChar(n)] else Decimal(n / 10) + [DigitChar(n % 10)]
  }

  /** `'scenario_' + Date.now()`. */
  function ScenarioId(clock: nat): string {
    "scenario_" + Decimal(clock)
  }

  lemma {:induction false} DigitCharInjective(a: nat, b: nat)
    requires a < 10 && b < 10 && DigitChar(a) == DigitChar(b)
    ensures a == b
  {
  }

  /** Different numbers have different decimal texts. */
  lemma {:induction false} DecimalInjective(a: nat, b: nat)
    requires Decimal(a) == Decimal(b)
    ensures a == b
    decreases a
  {
    var s := Decimal(a);
    if a < 10 && b < 10 {
      DigitCharInjective(a, b);
    } else if a >= 10 && b >= 10 {
      assert s[..|s| - 1] == Decimal(a / 10) && s[..|s| - 1] == Decimal(b / 10);
      DecimalInjective(a / 10, b / 10);
      DigitCharInjective(a % 10, b % 10);
    }
  }

  /** Scenarios saved at different clock readings get different ids. */
  lemma {:induction false} ScenarioIdsDiffer(t1: nat, t2: nat)
    requires t1 != t2
    ensures ScenarioId(t1) != ScenarioId(t2)
  {
    if ScenarioId(t1) == ScenarioId(t2) {
      var prefix := "scenario_";
      assert Decimal(t1) == ScenarioId(t1)[|prefix|..];
      assert Decimal(t2) == ScenarioId(t2)[|prefix|..];
      DecimalInjective(t1, t2);
    }
  }

  /** The list with every entry of id `id` removed, the others kept in order. */
  function WithoutId(s: seq<Scenario>, id: string): seq<Scenario> {
    if s == [] then []
    else if s[0].id == id then WithoutId(s[1..], id)
    else [s[0]] + WithoutId(s[1..], id)
  }

  predicate HasId(s: seq<Scenario>, id: string) {
    exists i :: 0 <= i < |s| && s[i].id == id
  }

  lemma {:induction false} HasIdCons(s: seq<Scenario>, id: string)
    requires s != []
    ensures HasId(s, id) <==> s[0].id == id || HasId(s[1..], id)
  {
    if HasId(s, id) && s[0].id != id {
      var i :| 0 <= i < |s| && s[i].id == id;
      assert s[1..][i - 1].id == id;
    }
    if HasId(s[1..], id) {
      var i :| 0 <= i < |s[1..]| && s[1..][i].id == id;
      assert s[i + 1].id == id;
    }
  }

  /** Removing the entries of an id leaves no entry of it, keeps every other entry, and
      shortens the list exactly when the list held that id. */
  lemma {:induction false} WithoutIdRemovesExactly(s: seq<Scenario>, id: string)
    ensures forall x :: x in WithoutId(s, id) <==> x in s && x.id != id
    ensures |WithoutId(s, id)| <= |s|
    ensures |WithoutId(s, id)| == |s| <==> !HasId(s, id)
  {
    if s != [] {
      WithoutIdRemovesExactly(s[1..], id);
      HasIdCons(s, id);
      assert s == [s[0]] + s[1..];
    }
  }

  /** Removing the entries of an id keeps the others in their order: it can be done piece
      by piece on any split of the list. */
  lemma {:induction false} WithoutIdKeepsOrder(a: seq<Scenario>, b: seq<Scenario>, id: string)
    ensures WithoutId(a + b, id) == WithoutId(a, id) + WithoutId(b, id)
  {
    if a != [] {
      assert (a + b)[1..] == a[1..] + b;
      WithoutIdKeepsOrder(a[1..], b, id);
    } else {
      assert a + b == b;
    }
  }

  /** A list without the id is left as it is. */
  lemma {:induction false} WithoutIdUnchanged(s: seq<Scenario>, id: string)
    requires !HasId(s, id)
    ensures WithoutId(s, id) == s
  {
    if s != [] {
      HasIdCons(s, id);
      WithoutIdUnchanged(s[1..], id);
      assert s == [s[0]] + s[1..];
    }
  }

  /** `find`: the first scenario with that id, if any. */
  function FirstWithId(s: seq<Scenario>, id: string): (found: Option<Scenario>)
    ensures found.None? <==> !HasId(s, id)
    ensures found.Some? ==> exists i :: && 0 <= i < |s|
                                        && s[i] == found.value
                                        && s[i].id == id
                                        && forall j :: 0 <= j < i ==> s[j].id != id
  {
    if s == [] then None
    else if s[0].id == id then Some(s[0])
    else
      var rest := FirstWithId(s[1..], id);
      HasIdCons(s, id);
      assert rest.Some? ==> exists i :: && 0 <= i < |s|
                                        && s[i] == rest.value
                                        && s[i].id == id
                                        && forall j :: 0 <= j < i ==> s[j].id != id by {
        if rest.Some? {
          var k :| && 0 <= k < |s[1..]| && s[1..][k] == rest.value && s[1..][k].id == id
                   && forall j :: 0 <= j < k ==> s[1..][j].id != id;
          assert forall j :: 0 <= j < k + 1 ==> s[j].id != id by {
            forall j | 0 <= j < k + 1 ensures s[j].id != id {
              if j > 0 {
                assert s[j] == s[1..][j - 1];
              }
            }
          }
          assert s[k + 1] == rest.value;
        }
      }
      rest
  }

  /** The scenario list, loaded from storage when the application starts. */
  class ScenarioStore {
    var scenarios: seq<Scenario>

    constructor(stored: seq<Scenario>)
      ensures scenarios == stored
    {
      scenarios := stored;
    }

    /** `saveScenario`: append the scenario under an id made from the clock reading, and
        return that id. */
    method Save(p: Params, data: ScenarioData, clock: nat) returns (id: string)
      modifies this
      ensures id == ScenarioId(clock)
      ensures scenarios == old(scenarios) + [Scenario(id, p, data)]
    {
      id := ScenarioId(clock);
      scenarios := scenarios + [Scenario(id, p, data)];
    }

    /** `getScenarioById`. */
    function FindById(id: string): Option<Scenario>
      reads this
    {
      FirstWithId(scenarios, id)
    }

    /** `deleteScenario`: drop every scenario with that id; report whether any was. */
    method Delete(id: string) returns (deleted: bool)
      modifies this
      ensures scenarios == WithoutId(old(scenarios), id)
      ensures deleted <==> HasId(old(scenarios), id)
      ensures deleted <==> |scenarios| != |old(scenarios)|
      ensures !deleted ==> scenarios == old(scenarios)
    {
      var before := scenarios;
      scenarios := WithoutId(scenarios, id);
      WithoutIdRemovesExactly(before, id);
      deleted := |scenarios| != |before|;
      if !deleted {
        WithoutIdUnchanged(before, id);
      }
    }
  }
}
