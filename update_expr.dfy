/**
 * The update-expression builder shared by the profile and session updates:
 * every defined entry of the update object becomes a clause `#k = :k` with the
 * bindings `#k -> k` and `:k -> value`, and a clause for `updatedAt` bound to a
 * fresh timestamp is always appended last.
 */
module UpdateExpr {
  import opened Wrappers
  import opened Strings
  import opened Types
  import opened Attributes

  /** One `[key, value]` pair of the update object's entries; `None` is an `undefined` value. */
  datatype Entry = Entry(key: string, value: Option<Value>)

  /** A clause of the `SET` expression: an attribute-name placeholder and a value placeholder. */
  datatype SetClause = SetClause(nameRef: string, valueRef: string)

  /** The clause list with the placeholder-name and placeholder-value maps sent with it. */
  datatype UpdatePlan = UpdatePlan(clauses: seq<SetClause>, names: map<string, string>, values: map<string, Value>)

  /** The clause for attribute `key`: `#key = :key`. */
  function ClauseFor(key: string): SetClause {
    SetClause("#" + key, ":" + key)
  }

  function RenderClause(c: SetClause): string {
    c.nameRef + " = " + c.valueRef
  }

  /** The update expression text: `SET ` and the clauses joined by `, `. */
  function Expression(plan: UpdatePlan): string {
    "SET " + Join(seq(|plan.clauses|, i requires 0 <= i < |plan.clauses| => RenderClause(plan.clauses[i])), ", ")
  }

  /** The attribute names of assignments are distinct. */
  predicate DistinctNames(d: seq<Assignment>) {
    forall i, j :: 0 <= i < j < |d| ==> d[i].0 != d[j].0
  }

  /** The keys of an object are distinct. */
  predicate DistinctKeys(entries: seq<Entry>) {
    forall i, j :: 0 <= i < j < |entries| ==> entries[i].key != entries[j].key
  }

  /** The entries whose value is defined, in entry order. */
  function Defined(entries: seq<Entry>): (d: seq<Assignment>)
    ensures |d| <= |entries|
    decreases |entries|
  {
    if |entries| == 0 then []
    else
      var e := entries[|entries| - 1];
      Defined(entries[..|entries| - 1]) + (if e.value.Some? then [(e.key, e.value.value)] else [])
  }

  /** The clauses and bindings contributed by the defined entries `d`. */
  function PlanOf(d: seq<Assignment>): UpdatePlan
    decreases |d|
  {
    if |d| == 0 then UpdatePlan([], map[], map[])
    else
      var p := PlanOf(d[..|d| - 1]);
      var (k, v) := d[|d| - 1];
      UpdatePlan(p.clauses + [ClauseFor(k)], p.names["#" + k := k], p.values[":" + k := v])
  }

  /** Appends the `updatedAt` clause and binds it to `now`. */
  function WithUpdatedAt(p: UpdatePlan, now: Timestamp): UpdatePlan {
    UpdatePlan(p.clauses + [SetClause("#updatedAt", ":updatedAt")], p.names["#updatedAt" := "updatedAt"],
               p.values[":updatedAt" := Instant(now)])
  }

  /** The plan the builder produces for an update object. */
  function Plan(entries: seq<Entry>, now: Timestamp): UpdatePlan {
    WithUpdatedAt(PlanOf(Defined(entries)), now)
  }

  /** The builder loop: fills the clause list and both maps entry by entry. */
  method BuildUpdate(entries: seq<Entry>, now: Timestamp) returns (plan: UpdatePlan)
    ensures plan == Plan(entries, now)
  {
    var clauses: seq<SetClause> := [];
    var names: map<string, string> := map[];
    var values: map<string, Value> := map[];
    for i := 0 to |entries|
      invariant UpdatePlan(clauses, names, values) == PlanOf(Defined(entries[..i]))
    {
      var e := entries[i];
      DefinedSnoc(entries[..i], e);
      assert entries[..i + 1] == entries[..i] + [e];
      if e.value.Some? {
        PlanOfSnoc(Defined(entries[..i]), (e.key, e.value.value));
        clauses := clauses + [SetClause("#" + e.key, ":" + e.key)];
        names := names["#" + e.key := e.key];
        values := values[":" + e.key := e.value.value];
      } else {
        assert Defined(entries[..i]) + [] == Defined(entries[..i]);
      }
    }
    assert entries[..|entries|] == entries;
    clauses := clauses + [SetClause("#updatedAt", ":updatedAt")];
    names := names["#updatedAt" := "updatedAt"];
    values := values[":updatedAt" := Instant(now)];
    plan := UpdatePlan(clauses, names, values);
  }

  lemma DefinedSnoc(entries: seq<Entry>, e: Entry)
    ensures Defined(entries + [e]) == Defined(entries) + (if e.value.Some? then [(e.key, e.value.value)] else [])
  {
    assert (entries + [e])[..|entries|] == entries;
  }

  lemma PlanOfSnoc(d: seq<Assignment>, a: Assignment)
    ensures PlanOf(d + [a]) == UpdatePlan(PlanOf(d).clauses + [ClauseFor(a.0)], PlanOf(d).names["#" + a.0 := a.0],
                                          PlanOf(d).values[":" + a.0 := a.1])
  {
    assert (d + [a])[..|d|] == d;
  }

  // ------------------------------------------------------------ properties

  lemma PrefixedInjective(c: char, a: string, b: string)
    requires [c] + a == [c] + b
    ensures a == b
  {
    assert a == ([c] + a)[1..];
    assert b == ([c] + b)[1..];
  }

  /** The defined entries are exactly the entries with a value. */
  lemma {:induction false} DefinedMembers(entries: seq<Entry>)
    ensures forall a :: a in Defined(entries) <==> Entry(a.0, Some(a.1)) in entries
    decreases |entries|
  {
    if |entries| > 0 {
      var init := entries[..|entries| - 1];
      DefinedMembers(init);
      assert entries == init + [entries[|entries| - 1]];
    }
  }

  /** Distinct keys stay distinct among the defined entries. */
  lemma {:induction false} DefinedDistinct(entries: seq<Entry>)
    requires DistinctKeys(entries)
    ensures DistinctNames(Defined(entries))
    decreases |entries|
  {
    if |entries| > 0 {
      var init := entries[..|entries| - 1];
      assert DistinctKeys(init);
      DefinedDistinct(init);
      DefinedMembers(init);
      var d := Defined(entries);
      var d0 := Defined(init);
      forall i, j | 0 <= i < j < |d| ensures d[i].0 != d[j].0 {
        if j == |d0| {
          assert d[i] in d0;
          assert Entry(d[i].0, Some(d[i].1)) in init;
        }
      }
    }
  }

  /** The clause list: one `#k = :k` per defined entry, in entry order. */
  lemma {:induction false} PlanOfClauses(d: seq<Assignment>)
    ensures |PlanOf(d).clauses| == |d|
    ensures forall i :: 0 <= i < |d| ==> PlanOf(d).clauses[i] == ClauseFor(d[i].0)
    decreases |d|
  {
    if |d| > 0 {
      PlanOfClauses(d[..|d| - 1]);
    }
  }

  /** The name bindings: `#k -> k` for every defined entry, and no other placeholder. */
  lemma {:induction false} PlanOfNames(d: seq<Assignment>)
    ensures forall i :: 0 <= i < |d| ==> "#" + d[i].0 in PlanOf(d).names && PlanOf(d).names["#" + d[i].0] == d[i].0
    decreases |d|
  {
    if |d| > 0 {
      var init := d[..|d| - 1];
      PlanOfNames(init);
      var k := d[|d| - 1].0;
      forall i | 0 <= i < |init| ensures PlanOf(d).names["#" + d[i].0] == d[i].0 {
        if "#" + d[i].0 == "#" + k { PrefixedInjective('#', d[i].0, k); }
      }
    }
  }

  /** No placeholder is bound except those of the defined entries. */
  lemma {:induction false} PlanOfOnly(d: seq<Assignment>)
    ensures forall s :: s in PlanOf(d).names ==> exists i :: 0 <= i < |d| && s == "#" + d[i].0
    ensures forall s :: s in PlanOf(d).values ==> exists i :: 0 <= i < |d| && s == ":" + d[i].0
    decreases |d|
  {
    if |d| > 0 {
      PlanOfOnly(d[..|d| - 1]);
    }
  }

  /** The value bindings: `:k -> value` for every defined entry when keys are distinct, and no other placeholder. */
  lemma {:induction false} PlanOfValues(d: seq<Assignment>)
    ensures forall i :: 0 <= i < |d| ==> ":" + d[i].0 in PlanOf(d).values
    ensures DistinctNames(d) ==> forall i :: 0 <= i < |d| ==> PlanOf(d).values[":" + d[i].0] == d[i].1
    decreases |d|
  {
    if |d| > 0 {
      var init := d[..|d| - 1];
      PlanOfValues(init);
      var k := d[|d| - 1].0;
      if DistinctNames(d) {
        assert DistinctNames(init);
        forall i | 0 <= i < |init| ensures PlanOf(d).values[":" + d[i].0] == d[i].1 {
          assert d[i].0 != k;
          if ":" + d[i].0 == ":" + k { PrefixedInjective(':', d[i].0, k); }
        }
      }
    }
  }

  /**
   * The builder's clause list: the defined entries' clauses in entry order,
   * then `#updatedAt = :updatedAt` last; undefined entries contribute no clause.
   */
  lemma PlanClauses(entries: seq<Entry>, now: Timestamp)
    requires DistinctKeys(entries)
    ensures var plan, d := Plan(entries, now), Defined(entries);
      && |plan.clauses| == |d| + 1
      && (forall i :: 0 <= i < |d| ==> plan.clauses[i] == ClauseFor(d[i].0))
      && plan.clauses[|d|] == ClauseFor("updatedAt")
      && (forall e :: e in entries && e.value.None? ==> ClauseFor(e.key) !in plan.clauses[..|d|])
  {
    var d := Defined(entries);
    var plan := Plan(entries, now);
    PlanOfClauses(d);
    UpdatedAtClause();
    UndefinedNoClause(entries);
    assert plan.clauses[..|d|] == PlanOf(d).clauses;
  }

  /** An entry without a value contributes no clause, even under another entry's key. */
  lemma UndefinedNoClause(entries: seq<Entry>)
    requires DistinctKeys(entries)
    ensures forall e :: e in entries && e.value.None? ==> ClauseFor(e.key) !in PlanOf(Defined(entries)).clauses
  {
    var d := Defined(entries);
    PlanOfClauses(d);
    DefinedMembers(entries);
    forall e | e in entries && e.value.None? ensures ClauseFor(e.key) !in PlanOf(d).clauses {
      if ClauseFor(e.key) in PlanOf(d).clauses {
        var i :| 0 <= i < |d| && PlanOf(d).clauses[i] == ClauseFor(e.key);
        PrefixedInjective('#', d[i].0, e.key);
        KeyOnce(entries, e, Entry(d[i].0, Some(d[i].1)));
      }
    }
  }

  /** Under distinct keys an entry is determined by its key. */
  lemma KeyOnce(entries: seq<Entry>, e1: Entry, e2: Entry)
    requires DistinctKeys(entries) && e1 in entries && e2 in entries && e1.key == e2.key
    ensures e1 == e2
  {
    var i :| 0 <= i < |entries| && entries[i] == e1;
    var j :| 0 <= j < |entries| && entries[j] == e2;
  }

  /**
   * The builder's name bindings: `#k -> k` for every defined entry and
   * `#updatedAt -> updatedAt`; no other placeholder is bound.
   */
  lemma PlanNames(entries: seq<Entry>, now: Timestamp)
    ensures var plan, d := Plan(entries, now), Defined(entries);
      && (forall i :: 0 <= i < |d| ==> "#" + d[i].0 in plan.names && plan.names["#" + d[i].0] == d[i].0)
      && plan.names["#updatedAt"] == "updatedAt"
      && (forall s :: s in plan.names ==> s == "#updatedAt" || exists i :: 0 <= i < |d| && s == "#" + d[i].0)
  {
    var d := Defined(entries);
    var plan := Plan(entries, now);
    PlanOfNames(d);
    PlanOfOnly(d);
    forall i | 0 <= i < |d| ensures plan.names["#" + d[i].0] == d[i].0 {
      if "#" + d[i].0 == "#updatedAt" {
        assert "#updatedAt" == "#" + "updatedAt";
        PrefixedInjective('#', d[i].0, "updatedAt");
      }
    }
  }

  /**
   * The builder's value bindings: `:k -> value` for every defined entry other
   * than `updatedAt`, and `:updatedAt -> now` whatever `updatedAt` the caller
   * supplied; no other placeholder is bound.
   */
  lemma PlanValues(entries: seq<Entry>, now: Timestamp)
    requires DistinctKeys(entries)
    ensures var plan, d := Plan(entries, now), Defined(entries);
      && (forall i :: 0 <= i < |d| ==> ":" + d[i].0 in plan.values)
      && (forall i :: 0 <= i < |d| && d[i].0 != "updatedAt" ==> plan.values[":" + d[i].0] == d[i].1)
      && plan.values[":updatedAt"] == Instant(now)
      && (forall s :: s in plan.values ==> s == ":updatedAt" || exists i :: 0 <= i < |d| && s == ":" + d[i].0)
  {
    var d := Defined(entries);
    var plan := Plan(entries, now);
    DefinedDistinct(entries);
    PlanOfValues(d);
    PlanOfOnly(d);
    forall i | 0 <= i < |d| && d[i].0 != "updatedAt" ensures plan.values[":" + d[i].0] == d[i].1 {
      PlaceholdersDiffer(d[i].0);
    }
  }

  /** A caller-supplied `updatedAt` yields the clause `#updatedAt = :updatedAt` twice. */
  lemma DuplicateUpdatedAt(entries: seq<Entry>, now: Timestamp, v: Value)
    requires DistinctKeys(entries)
    requires Entry("updatedAt", Some(v)) in entries
    ensures var plan := Plan(entries, now);
      exists i :: 0 <= i < |plan.clauses| - 1 && plan.clauses[i] == ClauseFor("updatedAt")
                  && plan.clauses[|plan.clauses| - 1] == ClauseFor("updatedAt")
  {
    var d := Defined(entries);
    DefinedMembers(entries);
    PlanOfClauses(d);
    assert ("updatedAt", v) in d;
    var i :| 0 <= i < |d| && d[i] == ("updatedAt", v);
    UpdatedAtClause();
    assert Plan(entries, now).clauses[i] == ClauseFor("updatedAt");
  }

  // ------------------------------------------------------------ meaning

  /** Every placeholder a clause uses is bound. */
  predicate Bound(plan: UpdatePlan) {
    forall c :: c in plan.clauses ==> c.nameRef in plan.names && c.valueRef in plan.values
  }

  /** What the store does with a plan: each clause assigns the bound value to the bound name, in order. */
  function Assignments(plan: UpdatePlan): (sets: seq<Assignment>)
    requires Bound(plan)
    ensures |sets| == |plan.clauses|
  {
    seq(|plan.clauses|, i requires 0 <= i < |plan.clauses| =>
      (plan.names[plan.clauses[i].nameRef], plan.values[plan.clauses[i].valueRef]))
  }

  /** A defined entry as its clause ends up assigning: `updatedAt` takes the fresh value. */
  function Effective(a: Assignment, now: Timestamp): Assignment {
    if a.0 == "updatedAt" then ("updatedAt", Instant(now)) else a
  }

  /** Every placeholder in the builder's clauses is bound. */
  lemma PlanBound(entries: seq<Entry>, now: Timestamp)
    requires DistinctKeys(entries)
    ensures Bound(Plan(entries, now))
  {
    var d := Defined(entries);
    var plan := Plan(entries, now);
    PlanOfClauses(d);
    forall c | c in plan.clauses ensures c.nameRef in plan.names && c.valueRef in plan.values {
      var i :| 0 <= i < |plan.clauses| && plan.clauses[i] == c;
      if i < |d| {
        assert c == ClauseFor(d[i].0);
        ClauseBound(d, now, i);
      } else {
        assert c == SetClause("#updatedAt", ":updatedAt");
        assert "#updatedAt" in plan.names;
        assert ":updatedAt" in plan.values;
      }
    }
  }

  /** The placeholders of a defined entry's clause stay bound once `updatedAt` is added. */
  lemma ClauseBound(d: seq<Assignment>, now: Timestamp, i: nat)
    requires i < |d|
    ensures var plan := WithUpdatedAt(PlanOf(d), now);
      "#" + d[i].0 in plan.names && ":" + d[i].0 in plan.values
  {
    PlanOfNames(d);
    PlanOfValues(d);
  }

  lemma PlanAssignmentAt(d: seq<Assignment>, now: Timestamp, i: nat)
    requires DistinctNames(d)
    requires i < |d|
    ensures var plan := WithUpdatedAt(PlanOf(d), now);
      && i < |plan.clauses|
      && plan.clauses[i].nameRef in plan.names && plan.clauses[i].valueRef in plan.values
      && (plan.names[plan.clauses[i].nameRef], plan.values[plan.clauses[i].valueRef]) == Effective(d[i], now)
  {
    var p := PlanOf(d);
    var k := d[i].0;
    PlanOfClauses(d);
    PlanOfNames(d);
    PlanOfValues(d);
    assert WithUpdatedAt(p, now).clauses[i] == ClauseFor(k);
    assert "#" + k in p.names && p.names["#" + k] == k;
    assert ":" + k in p.values && p.values[":" + k] == d[i].1;
    if k == "updatedAt" {
      assert "#" + k == "#updatedAt" && ":" + k == ":updatedAt";
    } else {
      PlaceholdersDiffer(k);
    }
  }

  /** The clause of `updatedAt` is the one the builder appends. */
  lemma UpdatedAtClause()
    ensures ClauseFor("updatedAt") == SetClause("#updatedAt", ":updatedAt")
  {
    assert "#" + "updatedAt" == "#updatedAt";
    assert ":" + "updatedAt" == ":updatedAt";
  }

  /** The placeholders of any other attribute differ from those of `updatedAt`. */
  lemma PlaceholdersDiffer(k: string)
    requires k != "updatedAt"
    ensures "#" + k != "#updatedAt" && ":" + k != ":updatedAt"
  {
    if "#" + k == "#updatedAt" {
      assert "#updatedAt" == "#" + "updatedAt";
      PrefixedInjective('#', k, "updatedAt");
    }
    if ":" + k == ":updatedAt" {
      assert ":updatedAt" == ":" + "updatedAt";
      PrefixedInjective(':', k, "updatedAt");
    }
  }

  /** The assignment the `i`th clause of the builder's plan makes, for a defined entry. */
  lemma AssignmentAt(entries: seq<Entry>, now: Timestamp, i: nat)
    requires DistinctKeys(entries) && i < |Defined(entries)|
    ensures Bound(Plan(entries, now))
    ensures |Assignments(Plan(entries, now))| == |Defined(entries)| + 1
    ensures Assignments(Plan(entries, now))[i] == Effective(Defined(entries)[i], now)
  {
    PlanBound(entries, now);
    PlanOfClauses(Defined(entries));
    DefinedDistinct(entries);
    PlanAssignmentAt(Defined(entries), now, i);
  }

  /** The builder's plan assigns each defined entry (with `updatedAt` overridden), then `updatedAt := now`. */
  lemma PlanAssignments(entries: seq<Entry>, now: Timestamp)
    requires DistinctKeys(entries)
    ensures Bound(Plan(entries, now))
    ensures var sets, d := Assignments(Plan(entries, now)), Defined(entries);
      && |sets| == |d| + 1
      && (forall i :: 0 <= i < |d| ==> sets[i] == Effective(d[i], now))
      && sets[|d|] == ("updatedAt", Instant(now))
  {
    var d := Defined(entries);
    LastAssignment(entries, now);
    var sets := Assignments(Plan(entries, now));
    forall i | 0 <= i < |d| ensures sets[i] == Effective(d[i], now) {
      AssignmentAt(entries, now, i);
    }
  }

  /** The clause added last assigns `now` to `updatedAt`. */
  lemma WithUpdatedAtLast(p: UpdatePlan, now: Timestamp)
    requires Bound(WithUpdatedAt(p, now))
    ensures Assignments(WithUpdatedAt(p, now))[|p.clauses|] == ("updatedAt", Instant(now))
  {
    assert WithUpdatedAt(p, now).clauses[|p.clauses|] == SetClause("#updatedAt", ":updatedAt");
  }

  /** The builder's last clause assigns `now` to `updatedAt`. */
  lemma LastAssignment(entries: seq<Entry>, now: Timestamp)
    requires DistinctKeys(entries)
    ensures Bound(Plan(entries, now))
    ensures var sets, d := Assignments(Plan(entries, now)), Defined(entries);
      |sets| == |d| + 1 && sets[|d|] == ("updatedAt", Instant(now))
  {
    PlanBound(entries, now);
    PlanOfClauses(Defined(entries));
    WithUpdatedAtLast(PlanOf(Defined(entries)), now);
  }

  lemma {:induction false} LastAssignedEffective(d: seq<Assignment>, now: Timestamp, sets: seq<Assignment>, name: string)
    requires |sets| == |d|
    requires forall i :: 0 <= i < |d| ==> sets[i] == Effective(d[i], now)
    requires name != "updatedAt"
    ensures LastAssigned(sets, name) == LastAssigned(d, name)
    decreases |d|
  {
    if |d| > 0 {
      LastAssignedEffective(d[..|d| - 1], now, sets[..|sets| - 1], name);
    }
  }

  /**
   * The effect of an update on any attribute: `updatedAt` becomes `now`; an
   * attribute with a defined entry takes that entry's value; every other
   * attribute is not assigned at all.
   */
  lemma PlanEffect(entries: seq<Entry>, now: Timestamp, name: string)
    requires DistinctKeys(entries)
    ensures Bound(Plan(entries, now))
    ensures LastAssigned(Assignments(Plan(entries, now)), name)
         == if name == "updatedAt" then Some(Instant(now)) else Supplied(entries, name)
  {
    PlanAssignments(entries, now);
    var sets := Assignments(Plan(entries, now));
    var d := Defined(entries);
    if name != "updatedAt" {
      LastAssignedEffective(d, now, sets[..|d|], name);
      assert sets[..|sets| - 1] == sets[..|d|];
    }
  }

  /** The value an update object supplies for attribute `name`, if its entry is defined. */
  function Supplied(entries: seq<Entry>, name: string): Option<Value> {
    LastAssigned(Defined(entries), name)
  }

  /**
   * An attribute's value after an update object is applied: `updatedAt` is
   * `now`, an attribute the object supplies takes that value, any other
   * keeps `before`.
   */
  function AfterUpdate(entries: seq<Entry>, now: Timestamp, name: string, before: Option<Value>): Option<Value> {
    if name == "updatedAt" then Some(Instant(now))
    else if Supplied(entries, name).Some? then Supplied(entries, name)
    else before
  }

  /** An attribute the object names: its value when one is given, else the value before. */
  lemma AfterUpdateNamed(entries: seq<Entry>, now: Timestamp, name: string, before: Option<Value>, v: Option<Value>)
    requires DistinctKeys(entries) && name != "updatedAt" && Entry(name, v) in entries
    ensures AfterUpdate(entries, now, name, before) == if v.Some? then v else before
  {
    SuppliedValue(entries, name);
  }

  /** An attribute the object does not name keeps its value, unless it is `updatedAt`. */
  lemma AfterUpdateUnnamed(entries: seq<Entry>, now: Timestamp, name: string, before: Option<Value>)
    requires DistinctKeys(entries) && name != "updatedAt"
    requires forall e :: e in entries ==> e.key != name
    ensures AfterUpdate(entries, now, name, before) == before
  {
    SuppliedValue(entries, name);
  }

  /** With distinct keys, the last value assigned to a key is that key's defined entry value. */
  lemma {:induction false} SuppliedValue(entries: seq<Entry>, name: string)
    requires DistinctKeys(entries)
    ensures Supplied(entries, name).Some? <==> exists v :: Entry(name, Some(v)) in entries
    ensures forall v :: Entry(name, Some(v)) in entries ==> Supplied(entries, name) == Some(v)
    decreases |entries|
  {
    if |entries| > 0 {
      var init := entries[..|entries| - 1];
      var e := entries[|entries| - 1];
      assert DistinctKeys(init);
      SuppliedValue(init, name);
      assert entries == init + [e];
      var d0 := Defined(init);
      if e.value.Some? {
        assert Defined(entries)[..|Defined(entries)| - 1] == d0;
      } else {
        assert Defined(entries) == d0;
      }
    }
  }
}
