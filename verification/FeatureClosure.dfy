/** Switching the features of a shop package on and off so that every enabled one has what it needs. */
module FeatureClosure {

  type Code = nat

  /** The features in the order they are listed, and the direct prerequisites of each; cycles are not excluded. */
  datatype Catalogue = Catalogue(codes: seq<Code>, prerequisites: map<Code, seq<Code>>) {

    /** Every listed feature is described, and prerequisites are listed features. */
    ghost predicate Valid() {
      && (forall code :: code in prerequisites <==> code in codes)
      && (forall code, p :: code in prerequisites && p in prerequisites[code] ==> p in codes)
    }

    function Needs(code: Code): seq<Code> {
      if code in prerequisites then prerequisites[code] else []
    }

    function Codes(): set<Code> {
      set code | code in codes
    }
  }

  /** A feature is described with the other as one of its prerequisites. */
  ghost predicate NeedsDirectly(c: Catalogue, from: Code, to: Code) {
    from in c.prerequisites && to in c.prerequisites[from]
  }

  /** What a saved package must satisfy: no enabled feature lacks a prerequisite. */
  ghost predicate Closed(c: Catalogue, enabled: set<Code>) {
    forall code, p :: code in enabled && NeedsDirectly(c, code, p) ==> p in enabled
  }

  // ---------------------------------------------------------------- dependency paths

  /** From each feature to a direct prerequisite of it. */
  ghost predicate IsPath(c: Catalogue, path: seq<Code>) {
    |path| >= 2 && forall i :: 0 <= i < |path| - 1 ==> NeedsDirectly(c, path[i], path[i + 1])
  }

  ghost predicate Leads(c: Catalogue, from: Code, to: Code, path: seq<Code>) {
    IsPath(c, path) && path[0] == from && path[|path| - 1] == to
  }

  /** A feature needs another, directly or through others. */
  ghost predicate Requires(c: Catalogue, from: Code, to: Code) {
    exists path :: Leads(c, from, to, path)
  }

  lemma DirectNeed(c: Catalogue, from: Code, to: Code)
    requires NeedsDirectly(c, from, to)
    ensures Leads(c, from, to, [from, to])
  {
  }

  lemma NeedFirst(c: Catalogue, from: Code, via: Code, to: Code)
    requires NeedsDirectly(c, from, via) && Requires(c, via, to)
    ensures Requires(c, from, to)
  {
    var path :| Leads(c, via, to, path);
    var longer := [from] + path;
    assert forall i :: 0 < i < |longer| - 1 ==> longer[i] == path[i - 1] && longer[i + 1] == path[i];
    assert Leads(c, from, to, longer);
  }

  lemma TailOfPath(c: Catalogue, path: seq<Code>)
    requires IsPath(c, path) && |path| > 2
    ensures IsPath(c, path[1..])
  {
    forall i | 0 <= i < |path| - 2 ensures NeedsDirectly(c, path[1..][i], path[1..][i + 1]) {
      assert NeedsDirectly(c, path[i + 1], path[(i + 1) + 1]);
    }
  }

  /** A path cannot leave a set that is closed beyond its start. */
  lemma {:induction false} PathStaysInside(c: Catalogue, path: seq<Code>, inside: set<Code>)
    requires IsPath(c, path) && Closed(c, inside)
    requires forall p :: NeedsDirectly(c, path[0], p) ==> p in inside
    ensures path[|path| - 1] in inside
    decreases |path|
  {
    assert NeedsDirectly(c, path[0], path[0 + 1]);
    if |path| > 2 {
      TailOfPath(c, path);
      PathStaysInside(c, path[1..], inside);
    }
  }

  // ---------------------------------------------------------------- what a feature needs

  /** The search behind enabling a feature: it collects prerequisites depth first. */
  class RequiredFeatures {
    const c: Catalogue
    var required: set<Code>

    constructor (c: Catalogue)
      ensures this.c == c && required == {}
    {
      this.c, required := c, {};
    }

    /** What a visit adds is needed by the visited feature, and is complete together with what was there before. */
    ghost predicate Added(before: set<Code>, code: Code)
      reads this
    {
      && before <= required <= c.Codes()
      && (forall p :: p in required - before ==> Requires(c, code, p))
      && (forall x, p :: x in required - before && NeedsDirectly(c, x, p) ==> p in required)
    }

    method Visit(code: Code)
      requires c.Valid() && required <= c.Codes()
      modifies this
      ensures Added(old(required), code)
      ensures forall p :: NeedsDirectly(c, code, p) ==> p in required
      decreases c.Codes() - required
    {
      var needs := c.Needs(code);
      for i := 0 to |needs|
        invariant Added(old(required), code)
        invariant forall j :: 0 <= j < i ==> needs[j] in required
      {
        var prerequisite := needs[i];
        if prerequisite in required {
          continue;
        }
        DirectNeed(c, code, prerequisite);
        ghost var before := required;
        required := required + {prerequisite};
        assert prerequisite in c.Codes() - old(required);
        Visit(prerequisite);
        forall p | p in required - before ensures Requires(c, code, p) {
          if p != prerequisite {
            NeedFirst(c, code, prerequisite, p);
          }
        }
      }
    }

    /** Exactly the direct and indirect prerequisites, whatever cycles the catalogue has. */
    method Search(code: Code)
      requires c.Valid() && required == {}
      modifies this
      ensures required == TransitiveNeeds(c, code)
    {
      Visit(code);
      forall p | p in c.Codes() && Requires(c, code, p) ensures p in required {
        var path :| Leads(c, code, p, path);
        PathStaysInside(c, path, required);
      }
    }
  }

  ghost function TransitiveNeeds(c: Catalogue, code: Code): set<Code> {
    set p | p in c.Codes() && Requires(c, code, p)
  }

  // ---------------------------------------------------------------- what needs a feature

  /** An enabled feature that needs the given one by way of enabled features only. */
  ghost predicate DependsWithin(c: Catalogue, enabled: set<Code>, from: Code, to: Code, path: seq<Code>) {
    Leads(c, from, to, path) && forall i :: 0 <= i < |path| - 1 ==> path[i] in enabled
  }

  ghost function Dependents(c: Catalogue, enabled: set<Code>, code: Code): set<Code> {
    set x | x in c.Codes() && exists path :: DependsWithin(c, enabled, x, code, path)
  }

  predicate NeedsAny(c: Catalogue, x: Code, code: Code, affected: set<Code>) {
    exists i | 0 <= i < |c.Needs(x)| :: c.Needs(x)[i] == code || c.Needs(x)[i] in affected
  }

  lemma NewDependent(c: Catalogue, enabled: set<Code>, x: Code, code: Code, affected: set<Code>)
    requires x in enabled && x in c.Codes()
    requires NeedsAny(c, x, code, affected) && affected <= Dependents(c, enabled, code)
    ensures x in Dependents(c, enabled, code)
  {
    var i :| 0 <= i < |c.Needs(x)| && (c.Needs(x)[i] == code || c.Needs(x)[i] in affected);
    var via := c.Needs(x)[i];
    if via == code {
      DirectNeed(c, x, code);
      assert DependsWithin(c, enabled, x, code, [x, code]);
    } else {
      var path :| DependsWithin(c, enabled, via, code, path);
      var longer := [x] + path;
      assert forall k :: 0 < k < |longer| - 1 ==> longer[k] == path[k - 1] && longer[k + 1] == path[k];
      assert DependsWithin(c, enabled, x, code, longer);
    }
  }

  /** A set of affected features to which no pass over the catalogue adds anything. */
  ghost predicate Saturated(c: Catalogue, enabled: set<Code>, code: Code, affected: set<Code>) {
    forall x :: x in c.Codes() && x in enabled && NeedsAny(c, x, code, affected) ==> x in affected
  }

  lemma {:induction false} SaturatedHoldsDependents(
    c: Catalogue, enabled: set<Code>, code: Code, affected: set<Code>, x: Code, path: seq<Code>)
    requires c.Valid() && Saturated(c, enabled, code, affected)
    requires x in c.Codes() && DependsWithin(c, enabled, x, code, path)
    ensures x in affected
    decreases |path|
  {
    assert NeedsDirectly(c, path[0], path[0 + 1]);
    var k :| 0 <= k < |c.Needs(x)| && c.Needs(x)[k] == path[1];
    if |path| > 2 {
      TailOfPath(c, path);
      forall i | 0 <= i < |path| - 2 ensures path[1..][i] in enabled {
        assert path[i + 1] in enabled;
      }
      SaturatedHoldsDependents(c, enabled, code, affected, path[1], path[1..]);
    }
    assert NeedsAny(c, x, code, affected);
  }

  /** The program's passes over the catalogue, repeated until one adds nothing. */
  method FindEnabledDependents(c: Catalogue, enabled: set<Code>, code: Code) returns (affected: set<Code>)
    requires c.Valid()
    ensures affected == Dependents(c, enabled, code)
  {
    affected := {};
    var changed := true;
    while changed
      invariant affected <= Dependents(c, enabled, code)
      invariant !changed ==> Saturated(c, enabled, code, affected)
      decreases c.Codes() - affected, changed
    {
      changed := false;
      ghost var before := affected;
      for i := 0 to |c.codes|
        invariant before <= affected <= Dependents(c, enabled, code)
        invariant changed <==> affected != before
        invariant !changed ==> forall j :: 0 <= j < i && c.codes[j] in enabled ==>
          c.codes[j] in affected || !NeedsAny(c, c.codes[j], code, affected)
      {
        var x := c.codes[i];
        if x !in enabled || x in affected {
          continue;
        }
        if NeedsAny(c, x, code, affected) {
          NewDependent(c, enabled, x, code, affected);
          affected := affected + {x};
          changed := true;
        }
      }
      assert before <= c.Codes() && affected <= c.Codes();
    }
    forall x | x in Dependents(c, enabled, code) ensures x in affected {
      var path :| DependsWithin(c, enabled, x, code, path);
      SaturatedHoldsDependents(c, enabled, code, affected, x, path);
    }
  }

  // ---------------------------------------------------------------- switching

  ghost function Enable(c: Catalogue, enabled: set<Code>, code: Code): set<Code> {
    enabled + {code} + TransitiveNeeds(c, code)
  }

  ghost function Disable(c: Catalogue, enabled: set<Code>, code: Code): set<Code> {
    enabled - {code} - Dependents(c, enabled, code)
  }

  /** Enabling yields the smallest closed set that has the feature and everything enabled before. */
  lemma EnableIsLeastClosed(c: Catalogue, enabled: set<Code>, code: Code, other: set<Code>)
    requires c.Valid() && Closed(c, enabled)
    ensures Closed(c, Enable(c, enabled, code))
    ensures Closed(c, other) && enabled <= other && code in other ==> Enable(c, enabled, code) <= other
  {
    forall x, p | x in Enable(c, enabled, code) && NeedsDirectly(c, x, p)
      ensures p in Enable(c, enabled, code)
    {
      if x == code {
        DirectNeed(c, code, p);
      } else if x in TransitiveNeeds(c, code) {
        var path :| Leads(c, code, x, path);
        NeedLast(c, code, x, p, path);
      }
    }
    if Closed(c, other) && enabled <= other && code in other {
      forall p | p in TransitiveNeeds(c, code) ensures p in other {
        var path :| Leads(c, code, p, path);
        PathStaysInside(c, path, other);
      }
    }
  }

  lemma NeedLast(c: Catalogue, from: Code, via: Code, to: Code, path: seq<Code>)
    requires Leads(c, from, via, path) && NeedsDirectly(c, via, to)
    ensures Requires(c, from, to)
  {
    var longer := path + [to];
    assert forall i :: 0 <= i < |path| ==> longer[i] == path[i];
    assert Leads(c, from, to, longer);
  }

  /** Disabling yields the largest closed set among what was enabled that does without the feature. */
  lemma DisableIsGreatestClosed(c: Catalogue, enabled: set<Code>, code: Code, other: set<Code>)
    requires c.Valid() && Closed(c, enabled) && enabled <= c.Codes()
    ensures Closed(c, Disable(c, enabled, code))
    ensures Closed(c, other) && other <= enabled && code !in other ==> other <= Disable(c, enabled, code)
  {
    var dependents := Dependents(c, enabled, code);
    forall x, p | x in Disable(c, enabled, code) && NeedsDirectly(c, x, p)
      ensures p in Disable(c, enabled, code)
    {
      var i :| 0 <= i < |c.Needs(x)| && c.Needs(x)[i] == p;
      if p == code || p in dependents {
        assert NeedsAny(c, x, code, dependents);
        NewDependent(c, enabled, x, code, dependents);
      }
    }
    if Closed(c, other) && other <= enabled && code !in other {
      forall x | x in other ensures x !in dependents {
        forall path ensures !DependsWithin(c, enabled, x, code, path) {
          if Leads(c, x, code, path) {
            PathStaysInside(c, path, other);
          }
        }
      }
    }
  }

  lemma {:induction false} PathInsideClosed(c: Catalogue, path: seq<Code>, enabled: set<Code>)
    requires IsPath(c, path) && Closed(c, enabled) && path[0] in enabled
    ensures forall i :: 0 <= i < |path| ==> path[i] in enabled
    decreases |path|
  {
    assert NeedsDirectly(c, path[0], path[0 + 1]);
    if |path| > 2 {
      TailOfPath(c, path);
      PathInsideClosed(c, path[1..], enabled);
      forall i | 0 < i < |path| ensures path[i] in enabled {
        assert path[i] == path[1..][i - 1];
      }
    }
  }

  /** In a closed package what is switched off along with a feature is exactly what needs it. */
  lemma DependentsAreThoseThatRequire(c: Catalogue, enabled: set<Code>, code: Code)
    requires Closed(c, enabled) && enabled <= c.Codes()
    ensures forall x :: x in enabled ==> (x in Dependents(c, enabled, code) <==> Requires(c, x, code))
  {
    forall x | x in enabled && Requires(c, x, code) ensures x in Dependents(c, enabled, code) {
      var path :| Leads(c, x, code, path);
      PathInsideClosed(c, path, enabled);
      assert DependsWithin(c, enabled, x, code, path);
    }
  }

  // ---------------------------------------------------------------- the one switch without a search

  /** The staff switch sets a single flag, whatever depends on it. */
  function SwitchOnly(enabled: set<Code>, code: Code, on: bool): set<Code> {
    if on then enabled + {code} else enabled - {code}
  }

  ghost predicate SwitchIsSafe(c: Catalogue, code: Code) {
    forall enabled: set<Code>, on ::
      enabled <= c.Codes() && Closed(c, enabled) ==> Closed(c, SwitchOnly(enabled, code, on))
  }

  /** Such a switch keeps every closed package closed exactly when its feature needs and is needed by no other. */
  lemma SwitchOnlyKeepsClosedIff(c: Catalogue, code: Code)
    requires c.Valid() && code in c.Codes()
    ensures SwitchIsSafe(c, code)
      <==> && (forall p :: NeedsDirectly(c, code, p) ==> p == code)
           && (forall x :: NeedsDirectly(c, x, code) ==> x == code)
  {
    if p :| NeedsDirectly(c, code, p) && p != code {
      assert code in SwitchOnly({}, code, true) && p !in SwitchOnly({}, code, true);
      assert Closed(c, {}) && !Closed(c, SwitchOnly({}, code, true));
    }
    if x :| NeedsDirectly(c, x, code) && x != code {
      EnableIsLeastClosed(c, {}, x, {});
      var package := Enable(c, {}, x);
      assert x in SwitchOnly(package, code, false) && code !in SwitchOnly(package, code, false);
      assert Closed(c, package) && !Closed(c, SwitchOnly(package, code, false));
    }
  }

  // ---------------------------------------------------------------- sequences of toggles

  datatype Toggle = On(code: Code) | Off(code: Code)

  /** The editor treats one feature apart: the staff switch does not search. */
  ghost function Apply(c: Catalogue, staff: Code, enabled: set<Code>, toggle: Toggle): set<Code> {
    if toggle.code == staff then SwitchOnly(enabled, staff, toggle.On?)
    else
      match toggle
      case On(code) => Enable(c, enabled, code)
      case Off(code) => Disable(c, enabled, code)
  }

  ghost function ApplyAll(c: Catalogue, staff: Code, enabled: set<Code>, toggles: seq<Toggle>): set<Code> {
    if toggles == [] then enabled
    else Apply(c, staff, ApplyAll(c, staff, enabled, toggles[..|toggles| - 1]), toggles[|toggles| - 1])
  }

  ghost predicate Listed(c: Catalogue, toggles: seq<Toggle>) {
    forall i :: 0 <= i < |toggles| ==> toggles[i].code in c.Codes()
  }

  ghost predicate TogglesAreSafe(c: Catalogue, staff: Code, enabled: set<Code>) {
    forall toggles :: Listed(c, toggles) ==> Closed(c, ApplyAll(c, staff, enabled, toggles))
  }

  lemma {:induction false} TogglesKeepClosed(c: Catalogue, staff: Code, enabled: set<Code>, toggles: seq<Toggle>)
    requires c.Valid() && Closed(c, enabled) && enabled <= c.Codes() && Listed(c, toggles) && SwitchIsSafe(c, staff)
    ensures Closed(c, ApplyAll(c, staff, enabled, toggles)) && ApplyAll(c, staff, enabled, toggles) <= c.Codes()
  {
    if toggles != [] {
      var before, toggle := ApplyAll(c, staff, enabled, toggles[..|toggles| - 1]), toggles[|toggles| - 1];
      TogglesKeepClosed(c, staff, enabled, toggles[..|toggles| - 1]);
      EnableIsLeastClosed(c, before, toggle.code, {});
      DisableIsGreatestClosed(c, before, toggle.code, {});
    }
  }

  lemma ApplyOne(c: Catalogue, staff: Code, enabled: set<Code>, toggle: Toggle)
    ensures ApplyAll(c, staff, enabled, [toggle]) == Apply(c, staff, enabled, toggle)
  {
    assert [toggle][..0] == [];
  }

  lemma ApplyTwo(c: Catalogue, staff: Code, enabled: set<Code>, first: Toggle, second: Toggle)
    ensures ApplyAll(c, staff, enabled, [first, second])
      == Apply(c, staff, Apply(c, staff, enabled, first), second)
  {
    assert [first, second][..1] == [first];
    ApplyOne(c, staff, enabled, first);
  }

  /**
   * From whichever closed package editing starts, no sequence of toggles leaves a feature enabled
   * without what it needs -- exactly when the staff feature is on its own in the catalogue.
   */
  lemma TogglesKeepClosedIff(c: Catalogue, staff: Code, enabled: set<Code>)
    requires c.Valid() && Closed(c, enabled) && enabled <= c.Codes() && staff in c.Codes()
    ensures TogglesAreSafe(c, staff, enabled)
      <==> && (forall p :: NeedsDirectly(c, staff, p) ==> p == staff)
           && (forall x :: NeedsDirectly(c, x, staff) ==> x == staff)
  {
    SwitchOnlyKeepsClosedIff(c, staff);
    if SwitchIsSafe(c, staff) {
      forall toggles | Listed(c, toggles) ensures Closed(c, ApplyAll(c, staff, enabled, toggles)) {
        TogglesKeepClosed(c, staff, enabled, toggles);
      }
    } else if p :| NeedsDirectly(c, staff, p) && p != staff {
      StaffWithoutItsNeed(c, staff, enabled, p);
    } else {
      var x :| NeedsDirectly(c, x, staff) && x != staff;
      ApplyTwo(c, staff, enabled, On(x), Off(staff));
      assert Listed(c, [On(x), Off(staff)]);
    }
  }

  /** Switching a need of the staff feature off and the staff switch on leaves that feature without it. */
  lemma StaffWithoutItsNeed(c: Catalogue, staff: Code, enabled: set<Code>, p: Code)
    requires c.Valid() && staff in c.Codes() && NeedsDirectly(c, staff, p) && p != staff
    ensures !TogglesAreSafe(c, staff, enabled)
  {
    assert p in c.Codes();
    ApplyTwo(c, staff, enabled, Off(p), On(staff));
    assert Listed(c, [Off(p), On(staff)]);
    var package := ApplyAll(c, staff, enabled, [Off(p), On(staff)]);
    assert staff in package && p !in package;
  }

  // ---------------------------------------------------------------- the editor

  /** The editor of one package; the staff switch is the one toggle that does not search. */
  class PackageEditor {
    const c: Catalogue
    const staffAccess: Code
    var enabled: set<Code>

    constructor (c: Catalogue, staffAccess: Code)
      ensures this.c == c && this.staffAccess == staffAccess && enabled == {}
    {
      this.c, this.staffAccess, enabled := c, staffAccess, {};
    }

    method SetFeatureEnabled(code: Code, on: bool)
      requires c.Valid()
      modifies this
      ensures enabled == Apply(c, staffAccess, old(enabled), if on then On(code) else Off(code))
    {
      if code == staffAccess {
        enabled := SwitchOnly(enabled, code, on);
      } else if on {
        var search := new RequiredFeatures(c);
        search.Search(code);
        enabled := enabled + {code} + search.required;
      } else {
        var dependents := FindEnabledDependents(c, enabled, code);
        enabled := enabled - {code} - dependents;
      }
    }
  }
}
