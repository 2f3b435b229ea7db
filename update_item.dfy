/** The item-update handler (src/update-item/index.ts): after the shared checks it parses the
    body, insists the item exists, and turns every body property other than the three protected
    ones into a placeholder-based `SET` action, stamping `updatedAt` with the request time. */
module UpdateItemHandler {
  import opened Common
  import opened Http
  import opened Config
  import opened Services

  /** Properties of the body the update never writes. */
  predicate Protected(key: string) {
    key == "id" || key == "createdAt" || key == "updatedAt"
  }

  /** The name placeholder for the property at position `i` of the body. */
  function AttrToken(i: nat): string {
    "#attr" + NatToString(i)
  }

  /** The value placeholder for the property at position `i` of the body. */
  function ValToken(i: nat): string {
    ":val" + NatToString(i)
  }

  const StampToken := ":updatedAt"

  /** The action every update starts with. */
  const StampAction := SetAction(Attribute("updatedAt"), StampToken)

  /** The action for the property at position `i`. */
  function Step(i: nat): SetAction {
    SetAction(NameToken(AttrToken(i)), ValToken(i))
  }

  /** The update request being assembled: its actions in order, the name placeholders and the
      value placeholders. */
  datatype Clause = Clause(actions: seq<SetAction>, names: map<string, string>, values: map<string, Value>)

  /** The request assembled once the properties `f` have been visited; a property's placeholders
      are numbered by its position in `f`, protected ones included. */
  function ClauseOf(f: Fields, ts: string): Clause {
    if f == [] then Clause([StampAction], map[], map[StampToken := Str(ts)])
    else
      var i := |f| - 1;
      var c := ClauseOf(f[..i], ts);
      if Protected(f[i].0) then c
      else Clause(c.actions + [Step(i)], c.names[AttrToken(i) := f[i].0], c.values[ValToken(i) := f[i].1])
  }

  /** The loop over `Object.keys(updateData)` that fills the parts, names and values. */
  method BuildClause(f: Fields, ts: string) returns (c: Clause)
    ensures c == ClauseOf(f, ts)
  {
    var actions := [StampAction];
    var names: map<string, string> := map[];
    var values := map[StampToken := Str(ts)];
    for i := 0 to |f|
      invariant Clause(actions, names, values) == ClauseOf(f[..i], ts)
    {
      assert f[..i + 1][..i] == f[..i];
      var key := f[i].0;
      if !Protected(key) {
        names := names[AttrToken(i) := key];
        values := values[ValToken(i) := f[i].1];
        actions := actions + [Step(i)];
      }
    }
    assert f[..|f|] == f;
    c := Clause(actions, names, values);
  }

  /** `ExpressionAttributeNames`: left out (undefined) when no name placeholder was made. */
  function NamesParam(names: map<string, string>): (r: Option<map<string, string>>)
    ensures r.Some? ==> r.value == names && names != map[]
    ensures r.None? ==> names == map[]
  {
    if |names| > 0 then Some(names) else None
  }

  /** The text of one action, `target = :value`. */
  function Render(a: SetAction): string {
    (match a.target
     case Attribute(n) => n
     case NameToken(t) => t) + " = " + a.valueToken
  }

  /** The `updateParts` list: one text per action. */
  function Parts(actions: seq<SetAction>): (parts: seq<string>)
    ensures |parts| == |actions|
    ensures forall k :: 0 <= k < |actions| ==> parts[k] == Render(actions[k])
  {
    seq(|actions|, k requires 0 <= k < |actions| => Render(actions[k]))
  }

  /** The `UpdateExpression` text: `SET ` and the parts joined by `, `. */
  function ExpressionText(actions: seq<SetAction>): (text: string)
    ensures |actions| == 1 ==> text == "SET " + Render(actions[0])
    ensures actions != [] ==> "SET " + Render(actions[0]) <= text
  {
    "SET " + Join(Parts(actions), ", ")
  }

  // ---------------------------------------------------------------- what the request says

  /** The positions of the unprotected properties, in increasing order. */
  function Positions(f: Fields): (p: seq<nat>)
    ensures forall k :: 0 <= k < |p| ==> p[k] < |f| && !Protected(f[p[k]].0)
    ensures forall i :: 0 <= i < |f| && !Protected(f[i].0) ==> i in p
    ensures forall k, l :: 0 <= k < l < |p| ==> p[k] < p[l]
  {
    if f == [] then []
    else
      var i := |f| - 1;
      var p := Positions(f[..i]);
      if Protected(f[i].0) then p else p + [i]
  }

  /** The actions are the stamp followed by one action per unprotected property, in body order. */
  lemma {:induction false} ClauseActions(f: Fields, ts: string)
    ensures |ClauseOf(f, ts).actions| == |Positions(f)| + 1
    ensures ClauseOf(f, ts).actions[0] == StampAction
    ensures forall k :: 0 <= k < |Positions(f)| ==> ClauseOf(f, ts).actions[k + 1] == Step(Positions(f)[k])
  {
    if f != [] {
      ClauseActions(f[..|f| - 1], ts);
    }
  }

  lemma ValTokenIsNotStamp(i: nat)
    ensures ValToken(i) != StampToken
  {
    assert ValToken(i)[1] == 'v';
    assert StampToken[1] == 'u';
  }

  lemma TokensInjective(i: nat, j: nat)
    requires i != j
    ensures AttrToken(i) != AttrToken(j) && ValToken(i) != ValToken(j)
  {
    if AttrToken(i) == AttrToken(j) {
      NumberedInjective("#attr", i, j);
    }
    if ValToken(i) == ValToken(j) {
      NumberedInjective(":val", i, j);
    }
  }

  /** `:updatedAt` always holds the time. */
  lemma {:induction false} ClauseStamp(f: Fields, ts: string)
    ensures StampToken in ClauseOf(f, ts).values && ClauseOf(f, ts).values[StampToken] == Str(ts)
  {
    if f != [] {
      var n := |f| - 1;
      ClauseStamp(f[..n], ts);
      if !Protected(f[n].0) {
        ValTokenIsNotStamp(n);
      }
    }
  }

  /** The unprotected property at position `i` has its name under `#attr<i>` and its value under `:val<i>`. */
  lemma {:induction false} ClauseEntry(f: Fields, ts: string, i: nat)
    requires i < |f| && !Protected(f[i].0)
    ensures AttrToken(i) in ClauseOf(f, ts).names && ClauseOf(f, ts).names[AttrToken(i)] == f[i].0
    ensures ValToken(i) in ClauseOf(f, ts).values && ClauseOf(f, ts).values[ValToken(i)] == f[i].1
  {
    var n := |f| - 1;
    var g := f[..n];
    if i < n {
      ClauseEntry(g, ts, i);
      assert g[i] == f[i];
      if !Protected(f[n].0) {
        TokensInjective(i, n);
      }
    }
  }

  /** Every name placeholder belongs to an unprotected property. */
  lemma {:induction false} ClauseNameOwner(f: Fields, ts: string, t: string)
    requires t in ClauseOf(f, ts).names
    ensures exists i :: 0 <= i < |f| && !Protected(f[i].0) && t == AttrToken(i)
  {
    if f != [] {
      var n := |f| - 1;
      var g := f[..n];
      if Protected(f[n].0) || t != AttrToken(n) {
        ClauseNameOwner(g, ts, t);
        var i :| 0 <= i < |g| && !Protected(g[i].0) && t == AttrToken(i);
        assert g[i] == f[i];
      }
    }
  }

  /** Every value placeholder but `:updatedAt` belongs to an unprotected property. */
  lemma {:induction false} ClauseValueOwner(f: Fields, ts: string, t: string)
    requires t in ClauseOf(f, ts).values && t != StampToken
    ensures exists i :: 0 <= i < |f| && !Protected(f[i].0) && t == ValToken(i)
  {
    if f != [] {
      var n := |f| - 1;
      var g := f[..n];
      if Protected(f[n].0) || t != ValToken(n) {
        ClauseValueOwner(g, ts, t);
        var i :| 0 <= i < |g| && !Protected(g[i].0) && t == ValToken(i);
        assert g[i] == f[i];
      }
    }
  }

  /** Each unprotected property gets its own name and value placeholder, holding its name and its
      value; the placeholders are exactly those, plus `:updatedAt` holding the time. */
  lemma ClauseMaps(f: Fields, ts: string)
    ensures StampToken in ClauseOf(f, ts).values && ClauseOf(f, ts).values[StampToken] == Str(ts)
    ensures forall i :: 0 <= i < |f| && !Protected(f[i].0) ==>
      AttrToken(i) in ClauseOf(f, ts).names && ClauseOf(f, ts).names[AttrToken(i)] == f[i].0 &&
      ValToken(i) in ClauseOf(f, ts).values && ClauseOf(f, ts).values[ValToken(i)] == f[i].1
    ensures forall t :: t in ClauseOf(f, ts).names ==>
      exists i :: 0 <= i < |f| && !Protected(f[i].0) && t == AttrToken(i)
    ensures forall t :: t in ClauseOf(f, ts).values ==>
      t == StampToken || exists i :: 0 <= i < |f| && !Protected(f[i].0) && t == ValToken(i)
  {
    ClauseStamp(f, ts);
    forall i | 0 <= i < |f| && !Protected(f[i].0)
      ensures AttrToken(i) in ClauseOf(f, ts).names && ClauseOf(f, ts).names[AttrToken(i)] == f[i].0
      ensures ValToken(i) in ClauseOf(f, ts).values && ClauseOf(f, ts).values[ValToken(i)] == f[i].1
    {
      ClauseEntry(f, ts, i);
    }
    forall t | t in ClauseOf(f, ts).names
      ensures exists i :: 0 <= i < |f| && !Protected(f[i].0) && t == AttrToken(i)
    {
      ClauseNameOwner(f, ts, t);
    }
    forall t | t in ClauseOf(f, ts).values && t != StampToken
      ensures exists i :: 0 <= i < |f| && !Protected(f[i].0) && t == ValToken(i)
    {
      ClauseValueOwner(f, ts, t);
    }
  }

  /** `ExpressionAttributeNames` is left out exactly when every property of the body is protected. */
  lemma NamesOmittedIffAllProtected(f: Fields, ts: string)
    ensures NamesParam(ClauseOf(f, ts).names).None? <==> forall k :: k in KeysOf(f) ==> Protected(k)
  {
    ClauseMaps(f, ts);
    var names := ClauseOf(f, ts).names;
    if exists k :: k in KeysOf(f) && !Protected(k) {
      var k :| k in KeysOf(f) && !Protected(k);
      var i :| 0 <= i < |f| && KeysOf(f)[i] == k;
      assert AttrToken(i) in names;
    }
  }

  // ---------------------------------------------------------------- the row it produces

  /** The row with the unprotected properties written over it, later ones last. */
  function Overlay(row: Item, f: Fields): Item {
    if f == [] then row
    else
      var i := |f| - 1;
      var r := Overlay(row, f[..i]);
      if Protected(f[i].0) then r else r[f[i].0 := f[i].1]
  }

  /** The row an update with body properties `f` at time `ts` leaves. */
  function Patched(row: Item, f: Fields, ts: string): Item {
    Overlay(row["updatedAt" := Str(ts)], f)
  }

  /** What the patched row holds: `updatedAt` is the request time, every unprotected body property
      has its body value, and every other attribute (`id` and `createdAt` among them) is kept. */
  lemma {:induction false} PatchedRow(row: Item, f: Fields, ts: string)
    requires DistinctKeys(f)
    ensures "updatedAt" in Patched(row, f, ts) && Patched(row, f, ts)["updatedAt"] == Str(ts)
    ensures forall i :: 0 <= i < |f| && !Protected(f[i].0) ==>
      f[i].0 in Patched(row, f, ts) && Patched(row, f, ts)[f[i].0] == f[i].1
    ensures forall k :: k in row && k != "updatedAt" && (Protected(k) || k !in KeysOf(f)) ==>
      k in Patched(row, f, ts) && Patched(row, f, ts)[k] == row[k]
    ensures forall k :: k in Patched(row, f, ts) <==>
      k in row || k == "updatedAt" || (k in KeysOf(f) && !Protected(k))
  {
    if f != [] {
      var n := |f| - 1;
      var g := f[..n];
      assert forall i :: 0 <= i < n ==> g[i] == f[i];
      assert DistinctKeys(g);
      PatchedRow(row, g, ts);
      assert KeysOf(f) == KeysOf(g) + [f[n].0];
      assert forall i :: 0 <= i < n ==> f[i].0 != f[n].0;
    }
  }

  /** Applying the assembled actions one after the other produces the patched row. */
  lemma {:induction false} AssignClause(row: Item, f: Fields, ts: string,
                                        names: map<string, string>, values: map<string, Value>)
    requires forall i :: 0 <= i < |f| && !Protected(f[i].0) ==>
      AttrToken(i) in names && names[AttrToken(i)] == f[i].0 &&
      ValToken(i) in values && values[ValToken(i)] == f[i].1
    requires StampToken in values && values[StampToken] == Str(ts)
    ensures Resolvable(ClauseOf(f, ts).actions, names) && ValuesDefined(ClauseOf(f, ts).actions, values)
    ensures Assign(row, ClauseOf(f, ts).actions, names, values) == Patched(row, f, ts)
  {
    var actions := ClauseOf(f, ts).actions;
    if f == [] {
      assert actions == [StampAction];
      assert actions[..0] == [];
      assert Assign(row, actions, names, values) == row["updatedAt" := Str(ts)];
    } else {
      var n := |f| - 1;
      var g := f[..n];
      forall i | 0 <= i < |g| && !Protected(g[i].0)
        ensures AttrToken(i) in names && names[AttrToken(i)] == g[i].0
        ensures ValToken(i) in values && values[ValToken(i)] == g[i].1
      {
        assert g[i] == f[i];
      }
      AssignClause(row, g, ts, names, values);
      var before := ClauseOf(g, ts).actions;
      assert Patched(row, f, ts) == if Protected(f[n].0) then Patched(row, g, ts)
        else Patched(row, g, ts)[f[n].0 := f[n].1];
      if !Protected(f[n].0) {
        assert actions == before + [Step(n)];
        assert Resolve(Step(n).target, names) == Some(f[n].0);
        assert forall a :: a in actions ==> a in before || a == Step(n);
        assert actions[..|actions| - 1] == before;
      } else {
        assert actions == before;
      }
    }
  }

  /** Everything `ClauseActions` and `ClauseMaps` say about an assembled request `c`. */
  predicate WellNumbered(f: Fields, ts: string, c: Clause) {
    var p := Positions(f);
    |c.actions| == |p| + 1 && c.actions[0] == StampAction &&
    (forall k :: 0 <= k < |p| ==> c.actions[k + 1] == Step(p[k])) &&
    StampToken in c.values && c.values[StampToken] == Str(ts) &&
    (forall i :: 0 <= i < |f| && !Protected(f[i].0) ==>
      AttrToken(i) in c.names && c.names[AttrToken(i)] == f[i].0 &&
      ValToken(i) in c.values && c.values[ValToken(i)] == f[i].1) &&
    (forall t :: t in c.names ==> exists i :: 0 <= i < |f| && !Protected(f[i].0) && t == AttrToken(i)) &&
    (forall t :: t in c.values ==> t == StampToken || exists i :: 0 <= i < |f| && !Protected(f[i].0) && t == ValToken(i))
  }

  lemma ClauseWellNumbered(f: Fields, ts: string)
    ensures WellNumbered(f, ts, ClauseOf(f, ts))
  {
    ClauseActions(f, ts);
    ClauseMaps(f, ts);
  }

  /** Every placeholder of the request is used by one of its actions. */
  lemma PlaceholdersUsed(f: Fields, ts: string, c: Clause)
    requires WellNumbered(f, ts, c)
    ensures NamesUsed(c.actions, c.names) && ValuesUsed(c.actions, c.values)
  {
    assert c.actions[0] in c.actions;
    forall t | t in c.names
      ensures exists a :: a in c.actions && a.target == NameToken(t)
    {
      var i :| 0 <= i < |f| && !Protected(f[i].0) && t == AttrToken(i);
      StepListed(f, ts, c, i);
      assert Step(i).target == NameToken(t);
    }
    forall t | t in c.values
      ensures exists a :: a in c.actions && a.valueToken == t
    {
      if t != StampToken {
        var i :| 0 <= i < |f| && !Protected(f[i].0) && t == ValToken(i);
        StepListed(f, ts, c, i);
        assert Step(i).valueToken == t;
      }
    }
  }

  /** Every unprotected property's action is among the request's actions. */
  lemma StepListed(f: Fields, ts: string, c: Clause, i: nat)
    requires WellNumbered(f, ts, c) && i < |f| && !Protected(f[i].0)
    ensures Step(i) in c.actions
  {
    var p := Positions(f);
    assert i in p;
    var k :| 0 <= k < |p| && p[k] == i;
    assert c.actions[k + 1] == Step(i);
  }

  /** The attributes the request writes: `updatedAt`, then the unprotected properties in body order. */
  lemma TargetsOfClause(f: Fields, ts: string, c: Clause)
    requires WellNumbered(f, ts, c) && Resolvable(c.actions, c.names)
    ensures |Targets(c.actions, c.names)| == |Positions(f)| + 1
    ensures Targets(c.actions, c.names)[0] == "updatedAt"
    ensures forall k :: 0 <= k < |Positions(f)| ==> Targets(c.actions, c.names)[k + 1] == f[Positions(f)[k]].0
  {
    var p := Positions(f);
    var targets := Targets(c.actions, c.names);
    forall k | 0 <= k < |p|
      ensures targets[k + 1] == f[p[k]].0
    {
      var i := p[k];
      assert c.actions[k + 1] == Step(i);
      assert 0 <= i < |f| && !Protected(f[i].0);
      assert c.names[AttrToken(i)] == f[i].0;
      assert Some(targets[k + 1]) == Resolve(NameToken(AttrToken(i)), c.names);
    }
  }

  /** `updatedAt` followed by distinct unprotected keys at increasing positions repeats nothing. */
  lemma TargetsDistinct(f: Fields, targets: seq<string>)
    requires DistinctKeys(f)
    requires |targets| == |Positions(f)| + 1 && targets[0] == "updatedAt"
    requires forall k :: 0 <= k < |Positions(f)| ==> targets[k + 1] == f[Positions(f)[k]].0
    ensures NoDuplicates(targets)
  {
    var p := Positions(f);
    forall j, l | 0 <= j < l < |targets|
      ensures targets[j] != targets[l]
    {
      assert targets[l] == f[p[l - 1]].0;
      if j > 0 {
        assert targets[j] == f[p[j - 1]].0;
      }
    }
  }

  /** A body the table can write: no property has the empty name, which the table refuses as an
      attribute name. */
  predicate Writable(f: Fields) {
    "" !in KeysOf(f)
  }

  /** The names sent hold the empty name exactly when the body has a property with that name (it
      is not protected, so it always gets a placeholder). */
  lemma EmptyNameSent(f: Fields, ts: string)
    ensures "" in ClauseOf(f, ts).names.Values <==> !Writable(f)
  {
    ClauseMaps(f, ts);
    var names := ClauseOf(f, ts).names;
    if "" in KeysOf(f) {
      var i :| 0 <= i < |f| && KeysOf(f)[i] == "";
      assert AttrToken(i) in names && names[AttrToken(i)] == "";
    }
    if "" in names.Values {
      var t :| t in names && names[t] == "";
      var i :| 0 <= i < |f| && !Protected(f[i].0) && t == AttrToken(i);
      assert KeysOf(f)[i] == "";
    }
  }

  /** A request whose names include the empty name is refused before anything else is checked. */
  lemma Refused(row: Item, c: Clause)
    requires "" in c.names.Values
    ensures ApplySet(row, c.actions, NamesParam(c.names), c.values) == Err(Invalid(EmptyAttributeName))
  {
    var t :| t in c.names && c.names[t] == "";
    assert |c.names| > 0;
  }

  /** A request that passes every check of the table applies its actions in order. */
  lemma Accepted(row: Item, c: Clause, expected: Item)
    requires "" !in c.names.Values
    requires Resolvable(c.actions, c.names) && ValuesDefined(c.actions, c.values)
    requires NamesUsed(c.actions, c.names) && ValuesUsed(c.actions, c.values)
    requires NoDuplicates(Targets(c.actions, c.names))
    requires Assign(row, c.actions, c.names, c.values) == expected
    ensures ApplySet(row, c.actions, NamesParam(c.names), c.values) == Ok(expected)
  {
    var names := NamesParam(c.names);
    assert (if names.Some? then names.value else map[]) == c.names;
  }

  /** The table accepts the assembled request whenever the body has no empty property name (no
      unresolved, unused or overlapping placeholder, no empty names map) and the row it leaves is
      the patched row; a body with an empty property name is refused. */
  lemma BuiltUpdateApplies(row: Item, f: Fields, ts: string)
    requires DistinctKeys(f)
    ensures ApplySet(row, ClauseOf(f, ts).actions, NamesParam(ClauseOf(f, ts).names), ClauseOf(f, ts).values)
      == if Writable(f) then Ok(Patched(row, f, ts)) else Err(Invalid(EmptyAttributeName))
  {
    var c := ClauseOf(f, ts);
    EmptyNameSent(f, ts);
    if Writable(f) {
      ClauseWellNumbered(f, ts);
      PlaceholdersUsed(f, ts, c);
      AssignClause(row, f, ts, c.names, c.values);
      TargetsOfClause(f, ts, c);
      TargetsDistinct(f, Targets(c.actions, c.names));
      Accepted(row, c, Patched(row, f, ts));
    } else {
      Refused(row, c);
    }
  }

  /** A body with `id`, `title`, `createdAt` and `price`, in that order. */
  const ExampleBody: Fields := [("id", Str("x")), ("title", Str("New")), ("createdAt", Str("c")), ("price", Num(5.0))]

  /** Its two unprotected properties are written through placeholders numbered 1 and 3. */
  lemma ExampleActions(ts: string)
    ensures ClauseOf(ExampleBody, ts).actions == [StampAction, Step(1), Step(3)]
  {
    var f := ExampleBody;
    assert f[..3][..2][..1][..0] == [];
    assert f[..3][..2][..1] == f[..1];
    assert ClauseOf(f[..1], ts).actions == [StampAction];
    assert ClauseOf(f[..3][..2], ts).actions == [StampAction, Step(1)];
    assert ClauseOf(f[..3], ts).actions == [StampAction, Step(1)];
  }

  /** The expression text that body produces. */
  lemma ExampleExpression(ts: string)
    ensures ExpressionText(ClauseOf(ExampleBody, ts).actions)
      == "SET " + ("updatedAt = :updatedAt" + ", " + ("#attr1 = :val1" + ", " + "#attr3 = :val3"))
  {
    ExampleActions(ts);
    var actions := [StampAction, Step(1), Step(3)];
    assert NatToString(1) == "1" && NatToString(3) == "3";
    assert Render(Step(1)) == "#attr1 = :val1";
    assert Render(Step(3)) == "#attr3 = :val3";
    assert Render(StampAction) == "updatedAt = :updatedAt";
    var parts := Parts(actions);
    assert parts[1..][1..] == ["#attr3 = :val3"];
    assert Join(parts[1..], ", ") == "#attr1 = :val1" + ", " + "#attr3 = :val3";
    assert Join(parts, ", ") == "updatedAt = :updatedAt" + ", " + Join(parts[1..], ", ");
  }

  /** When every property is protected, no position is selected. */
  lemma {:induction false} NoPositions(f: Fields)
    requires forall k :: k in KeysOf(f) ==> Protected(k)
    ensures Positions(f) == []
  {
    if f != [] {
      var n := |f| - 1;
      var g := f[..n];
      assert KeysOf(f)[n] == f[n].0;
      forall k | k in KeysOf(g)
        ensures Protected(k)
      {
        var i :| 0 <= i < n && KeysOf(g)[i] == k;
        assert KeysOf(f)[i] == k;
      }
      NoPositions(g);
    }
  }

  /** A body whose properties are all protected (or that has none) updates `updatedAt` only. */
  lemma StampOnlyExpression(f: Fields, ts: string)
    requires forall k :: k in KeysOf(f) ==> Protected(k)
    ensures ClauseOf(f, ts).actions == [StampAction]
    ensures ExpressionText(ClauseOf(f, ts).actions) == "SET updatedAt = :updatedAt"
  {
    ClauseActions(f, ts);
    NoPositions(f);
    assert Render(StampAction) == "updatedAt = :updatedAt";
  }

  // ---------------------------------------------------------------- the handler

  const UpdatedSubject := "Item Updated Notification"
  const UpdatedMessage := "Item updated successfully"

  /** The body's properties, when there is a body, it parses and its properties can be read. */
  function BodyFields(req: Request): (r: Option<Fields>)
    ensures r.Some? ==> DistinctKeys(r.value)
  {
    match BodyText(req)
    case None => None
    case Some(t) =>
      match Parse(t)
      case Err(_) => None
      case Ok(v) => match Properties(v) case Err(_) => None case Ok(f) => Some(f)
  }

  /** After the update: the re-read of the row, then the notification listing `keys`. */
  function Announce(id: string, keys: seq<string>, ts: string, s: State): (r: (Response, State))
    requires id in s.table
    ensures r.0.headers == CorsHeaders
    ensures r.1.failing == s.failing && r.1.bucket == s.bucket && r.1.table == s.table && s.log <= r.1.log
    ensures r.0.statusCode == 200 <==> s.Clear(2)
    ensures r.0.statusCode != 200 ==>
      r.0.statusCode == 500 && r.1.topic == s.topic &&
      s.StoppedBy(r.1) && r.0 == InternalError(s.Thrown(r.1))
    ensures r.0.statusCode == 200 ==>
      r.1.topic == s.topic + [Notice(UpdatedSubject, ItemUpdated(id, ts, keys))] &&
      r.0.body == UpdatedBody(UpdatedMessage, Some(s.table[id]))
  {
    var (reread, s1) := s.Get(id);
    s.ClearNext(s1, 1);
    if reread.Err? then (InternalError(reread.error), s1)
    else
      var (published, s2) := s1.Publish(Notice(UpdatedSubject, ItemUpdated(id, ts, keys)));
      s1.ClearNext(s2, 0);
      s.StoppedAfter(s1, s2);
      if published.Err? then (InternalError(published.error), s2)
      else (Respond(200, UpdatedBody(UpdatedMessage, reread.value)), s2)
  }

  /** What the table does with the built update of an existing row: it throws the environment's
      error, refuses an empty property name, or stores the patched row. */
  lemma UpdateOutcome(id: string, f: Fields, ts: string, s: State)
    requires DistinctKeys(f) && id in s.table
    ensures var c := ClauseOf(f, ts);
      var t := s.Record(UpdateItem(id, c.actions, NamesParam(c.names), c.values));
      s.Update(id, c.actions, NamesParam(c.names), c.values) ==
        if s.NextFailure().Some? then (Err(s.NextFailure().value), t)
        else if !Writable(f) then (Err(Invalid(EmptyAttributeName)), t)
        else (Ok(()), t.(table := s.table[id := Patched(s.table[id], f, ts)]))
    ensures var c := ClauseOf(f, ts);
      var t := s.Record(UpdateItem(id, c.actions, NamesParam(c.names), c.values));
      |t.log| == |s.log| + 1 && (s.StoppedBy(t) <==> s.NextFailure().Some?)
    ensures var c := ClauseOf(f, ts);
      var u := s.Update(id, c.actions, NamesParam(c.names), c.values);
      u.0.Err? ==>
        (s.StoppedBy(u.1) ==> u.0.error == s.Thrown(u.1)) &&
        (!s.StoppedBy(u.1) ==> !Writable(f) && u.0.error == Invalid(EmptyAttributeName))
  {
    BuiltUpdateApplies(s.table[id], f, ts);
  }

  /** A failure after a call that went through is the first failure counted from before that call. */
  lemma AnnounceStopped(id: string, keys: seq<string>, ts: string, s: State, s1: State)
    requires |s1.log| == |s.log| + 1 && s1.failing == s.failing && s.NextFailure().None?
    requires id in s1.table
    ensures var r := Announce(id, keys, ts, s1);
      r.0.statusCode != 200 ==> s.StoppedBy(r.1) && r.0 == InternalError(s.Thrown(r.1))
  {
    var r := Announce(id, keys, ts, s1);
    s.StoppedAfter(s1, r.1);
  }

  /** The writes once the item is known to exist: the update, the re-read and the notification. */
  function Commit(id: string, f: Fields, ts: string, s: State): (r: (Response, State))
    requires DistinctKeys(f) && id in s.table
    ensures r.0.headers == CorsHeaders
    ensures r.1.failing == s.failing && r.1.bucket == s.bucket && s.log <= r.1.log
    ensures r.0.statusCode == 200 <==> s.Clear(3) && Writable(f)
    ensures r.0.statusCode != 200 ==>
      r.0.statusCode == 500 && r.0.body.Failed? && r.0.body.error != "" && r.1.topic == s.topic
    ensures r.0.statusCode != 200 ==>
      r.0 == InternalError(if s.StoppedBy(r.1) then s.Thrown(r.1) else Invalid(EmptyAttributeName))
    ensures r.0.statusCode != 200 && !s.StoppedBy(r.1) ==> !Writable(f)
    ensures r.1.table == if s.Clear(1) && Writable(f) then s.table[id := Patched(s.table[id], f, ts)] else s.table
    ensures r.0.statusCode == 200 ==>
      r.1.topic == s.topic + [Notice(UpdatedSubject, ItemUpdated(id, ts, KeysOf(f)))] &&
      r.0.body == UpdatedBody(UpdatedMessage, Some(Patched(s.table[id], f, ts)))
  {
    var c := ClauseOf(f, ts);
    UpdateOutcome(id, f, ts, s);
    var (updated, s1) := s.Update(id, c.actions, NamesParam(c.names), c.values);
    s.ClearNext(s1, 2);
    if updated.Err? then (InternalError(updated.error), s1)
    else
      AnnounceStopped(id, KeysOf(f), ts, s, s1);
      Announce(id, KeysOf(f), ts, s1)
  }

  /** The handler once the item is known to exist: `Object.keys` on the body, then the update. */
  function Amend(id: string, data: JsonValue, ts: string, s: State): (r: (Response, State))
    requires id in s.table
    ensures r.0.headers == CorsHeaders
    ensures r.1.failing == s.failing && r.1.bucket == s.bucket && s.log <= r.1.log
    ensures r.0.statusCode == 200 <==> s.Clear(3) && Properties(data).Ok? && Writable(Properties(data).value)
    ensures r.0.statusCode != 200 ==>
      r.0.statusCode == 500 && r.0.body.Failed? && r.0.body.error != "" && r.1.topic == s.topic
    ensures r.0.statusCode != 200 ==>
      r.0 == InternalError(
        if s.StoppedBy(r.1) then s.Thrown(r.1)
        else if Properties(data).Err? then Properties(data).error
        else Invalid(EmptyAttributeName))
    ensures r.1.table == if s.Clear(1) && Properties(data).Ok? && Writable(Properties(data).value)
      then s.table[id := Patched(s.table[id], Properties(data).value, ts)] else s.table
    ensures r.0.statusCode == 200 ==>
      (Properties(data).Ok? &&
       r.1.topic == s.topic + [Notice(UpdatedSubject, ItemUpdated(id, ts, KeysOf(Properties(data).value)))] &&
       r.0.body == UpdatedBody(UpdatedMessage, Some(Patched(s.table[id], Properties(data).value, ts))))
  {
    match Properties(data)
    case Err(e) => (InternalError(e), s)
    case Ok(f) => Commit(id, f, ts, s)
  }

  /** From the existence check on: 404 for an absent item, then the body's properties, then the
      writes. */
  function Proceed(id: string, data: JsonValue, ts: string, s: State): (r: (Response, State))
    ensures r.0.headers == CorsHeaders
    ensures r.1.failing == s.failing && r.1.bucket == s.bucket && s.log <= r.1.log
    ensures r.0.statusCode == 404 <==> s.Clear(1) && id !in s.table
    ensures r.0.statusCode == 404 ==> r.1 == s.Record(GetItem(id)) && r.0 == NotFound()
    ensures r.0.statusCode == 200 <==>
      s.Clear(4) && id in s.table && Properties(data).Ok? && Writable(Properties(data).value)
    ensures r.0.statusCode !in {200, 404} ==>
      r.0.statusCode == 500 && r.0.body.Failed? && r.0.body.error != ""
    ensures r.0.statusCode !in {200, 404} ==>
      r.0 == InternalError(
        if s.StoppedBy(r.1) then s.Thrown(r.1)
        else if Properties(data).Err? then Properties(data).error
        else Invalid(EmptyAttributeName))
    ensures r.0.statusCode != 200 ==> r.1.topic == s.topic
    ensures r.1.table == if s.Clear(2) && id in s.table && Properties(data).Ok? && Writable(Properties(data).value)
      then s.table[id := Patched(s.table[id], Properties(data).value, ts)] else s.table
    ensures r.0.statusCode == 200 ==>
      (Properties(data).Ok? && id in s.table &&
       r.1.topic == s.topic + [Notice(UpdatedSubject, ItemUpdated(id, ts, KeysOf(Properties(data).value)))] &&
       r.0.body == UpdatedBody(UpdatedMessage, Some(Patched(s.table[id], Properties(data).value, ts))))
  {
    var (existing, s1) := s.Get(id);
    s.ClearNext(s1, 3);
    s.ClearNext(s1, 1);
    s.ClearNext(s1, 0);
    if existing.Err? then (InternalError(existing.error), s1)
    else if existing.value.None? then (NotFound(), s1)
    else
      var r := Amend(id, data, ts, s1);
      s.StoppedAfter(s1, r.1);
      r
  }

  /** What the handler goes on with: configuration valid, authorized, an id, a body whose
      properties can be read and can all be written, and an existing item. */
  predicate Admitted(cfg: Config, req: Request, s: State) {
    ValidateConfig(cfg).None? && Authorized(req) && PathId(req).Some? && BodyFields(req).Some? &&
    Writable(BodyFields(req).value) && PathId(req).value in s.table
  }

  /** Once the body has parsed to `data`, admission is about `data`'s properties and the table. */
  lemma AdmittedParsed(cfg: Config, req: Request, s: State, data: JsonValue)
    requires ValidateConfig(cfg).None? && Authorized(req) && PathId(req).Some? && BodyText(req).Some?
    requires Parse(BodyText(req).value) == Ok(data)
    ensures BodyFields(req) == match Properties(data) case Err(_) => None case Ok(f) => Some(f)
    ensures Admitted(cfg, req, s) <==>
      Properties(data).Ok? && Writable(Properties(data).value) && PathId(req).value in s.table
  {
  }

  /** The handler, with `ts` the time the request is served at. */
  function Handle(cfg: Config, req: Request, ts: string, s: State): (r: (Response, State))
    ensures r.0.headers == CorsHeaders
    ensures r.1.failing == s.failing && r.1.bucket == s.bucket && s.log <= r.1.log
    ensures r.0.statusCode in {200, 400, 401, 404, 500}
    ensures r.0.statusCode == 401 <==> ValidateConfig(cfg).None? && !Authorized(req)
    ensures r.0.statusCode == 401 ==> r.0 == Unauthorized()
    ensures r.0.statusCode == 400 <==>
      ValidateConfig(cfg).None? && Authorized(req) && (PathId(req).None? || BodyText(req).None?)
    ensures r.0.statusCode == 400 ==> r.0 == if PathId(req).None? then MissingId() else MissingBody()
    ensures r.0.statusCode in {400, 401} ==> r.1 == s
    ensures r.0.statusCode == 404 <==>
      ValidateConfig(cfg).None? && Authorized(req) && PathId(req).Some? && BodyText(req).Some? &&
      Parse(BodyText(req).value).Ok? && s.Clear(1) && PathId(req).value !in s.table
    ensures r.0.statusCode == 404 ==> r.1 == s.Record(GetItem(PathId(req).value)) && r.0 == NotFound()
    ensures r.0.statusCode == 500 ==> r.0.body.Failed? && r.0.body.error != ""
    ensures ValidateConfig(cfg).Some? ==> r == (InternalError(ValidateConfig(cfg).value), s)
    ensures r.0.statusCode == 500 && ValidateConfig(cfg).None? ==>
      (BodyText(req).Some? &&
       var parsed := Parse(BodyText(req).value);
       r.0 == InternalError(
         if parsed.Err? then parsed.error
         else if s.StoppedBy(r.1) then s.Thrown(r.1)
         else if Properties(parsed.value).Err? then Properties(parsed.value).error
         else Invalid(EmptyAttributeName)))
    ensures r.0.statusCode != 200 ==> r.1.topic == s.topic
    ensures r.0.statusCode == 200 <==> Admitted(cfg, req, s) && s.Clear(4)
    ensures r.1.table == if Admitted(cfg, req, s) && s.Clear(2)
      then s.table[PathId(req).value := Patched(s.table[PathId(req).value], BodyFields(req).value, ts)]
      else s.table
    ensures r.0.statusCode == 200 ==>
      (Admitted(cfg, req, s) &&
       var id := PathId(req).value;
       var f := BodyFields(req).value;
       r.1.topic == s.topic + [Notice(UpdatedSubject, ItemUpdated(id, ts, KeysOf(f)))] &&
       r.0.body == UpdatedBody(UpdatedMessage, Some(Patched(s.table[id], f, ts))))
  {
    if ValidateConfig(cfg).Some? then (InternalError(ValidateConfig(cfg).value), s)
    else if !Authorized(req) then (Unauthorized(), s)
    else if PathId(req).None? then (MissingId(), s)
    else if BodyText(req).None? then (MissingBody(), s)
    else
      match Parse(BodyText(req).value)
      case Err(e) => (InternalError(e), s)
      case Ok(data) =>
        AdmittedParsed(cfg, req, s, data);
        Proceed(PathId(req).value, data, ts, s)
  }

  /** The handler as it runs against the services. */
  method HandleUpdate(b: Backend, cfg: Config, req: Request, ts: string) returns (resp: Response)
    modifies b
    ensures (resp, b.Snapshot()) == Handle(cfg, req, ts, old(b.Snapshot()))
  {
    var thrown := ValidateConfig(cfg);
    if thrown.Some? {
      return InternalError(thrown.value);
    }
    if !Authorized(req) {
      return Unauthorized();
    }
    var itemId := PathId(req);
    if itemId.None? {
      return MissingId();
    }
    var body := BodyText(req);
    if body.None? {
      return MissingBody();
    }
    var id := itemId.value;
    var parsed := Parse(body.value);
    if parsed.Err? {
      return InternalError(parsed.error);
    }
    var existing := b.Get(id);
    if existing.Err? {
      return InternalError(existing.error);
    }
    if existing.value.None? {
      return NotFound();
    }
    var keys := Properties(parsed.value);
    if keys.Err? {
      return InternalError(keys.error);
    }
    var c := BuildClause(keys.value, ts);
    var updated := b.Update(id, c.actions, NamesParam(c.names), c.values);
    if updated.Err? {
      return InternalError(updated.error);
    }
    var reread := b.Get(id);
    if reread.Err? {
      return InternalError(reread.error);
    }
    var published := b.Publish(Notice(UpdatedSubject, ItemUpdated(id, ts, KeysOf(keys.value))));
    if published.Err? {
      return InternalError(published.error);
    }
    resp := Respond(200, UpdatedBody(UpdatedMessage, reread.value));
  }
}
