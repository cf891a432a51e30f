/** The schema's check of inverse directives, and what it guarantees: an inverse leads back to
    an attribute one cannot tell from the first, and the two ends are routed dually. */
module SchemaCheck {
  import opened Outcomes
  import Driver = InverseDriver

  /** An inverse directive by names, an attribute already set, known by its class and its number
      there, or none. */
  datatype Spec = NoInverse | Names(cls: string, attr: string) | Set(cls: string, num: nat)

  /** `owner` is the class that declares the attribute; `dims` stands for the type modifier, and `cls`
      names the attribute's type. */
  datatype Attribute = Attribute(owner: string, name: string, num: nat, dims: seq<nat>, cls: string, spec: Spec)

  /** A class lists what it inherits before what it declares itself. */
  datatype Class = Class(name: string, items: seq<Attribute>)

  type Catalog = map<string, Class>

  /** The last attribute of that name, so that a class's own goes before an inherited one. */
  function Find(items: seq<Attribute>, name: string): (a: Option<Attribute>)
    ensures a.Some? ==> a.value in items && a.value.name == name
    ensures a.None? ==> forall b | b in items :: b.name != name
  {
    if items == [] then None
    else
      var n := |items| - 1;
      if items[n].name == name then Some(items[n]) else Find(items[..n], name)
  }

  /** `a` has that name and no attribute listed after it does. */
  ghost predicate LastNamed(items: seq<Attribute>, name: string, a: Attribute) {
    exists i :: 0 <= i < |items| && items[i] == a && a.name == name
        && forall j | i < j < |items| :: items[j].name != name
  }

  lemma FindLast(items: seq<Attribute>, i: nat, name: string)
    requires i < |items|
    ensures Find(items[..i + 1], name) == if items[i].name == name then Some(items[i]) else Find(items[..i], name)
  {
    assert items[..i + 1][..i] == items[..i];
  }

  /** getAttribute: from the last attribute to the first. */
  method GetAttribute(items: seq<Attribute>, name: string) returns (a: Option<Attribute>)
    ensures a == Find(items, name)
    ensures a.Some? ==> LastNamed(items, name, a.value)
    ensures a.None? ==> forall b | b in items :: b.name != name
  {
    assert items[..|items|] == items;
    for i := |items| downto 0
      invariant forall j | i <= j < |items| :: items[j].name != name
      invariant Find(items, name) == Find(items[..i], name)
    {
      FindLast(items, i, name);
      if items[i].name == name {
        return Some(items[i]);
      }
    }
    return None;
  }

  /** The attribute that a directive leads to; an error where the class or the attribute is
      missing, or where a directive is required and there is none. */
  datatype Path = Ends(invitem: Option<Attribute>) | Broken(error: Error)

  /** The item has a directive; an attribute of a class that is not there was never set. */
  predicate Directed(m: Catalog, spec: Spec) {
    match spec
    case NoInverse => false
    case Set(c, k) => c in m && k < |m[c].items|
    case Names(_, _) => true
  }

  function InversePath(m: Catalog, item: Attribute, mandatory: bool): Path {
    if !Directed(m, item.spec) then if mandatory then Broken(Error.NoInverse) else Ends(None)
    else match item.spec
      case Set(c, k) => Ends(Some(m[c].items[k]))
      case Names(c, f) =>
        if c !in m then Broken(UnknownClass)
        else match Find(m[c].items, f) {
          case None => Broken(UnknownAttribute)
          case Some(inv) => Ends(Some(inv))
        }
  }

  /** Attribute::compare: the owner is not compared. */
  predicate Alike(a: Attribute, b: Attribute) {
    a.num == b.num && a.name == b.name && a.dims == b.dims && a.cls == b.cls
  }

  /** What the check asks of one attribute. */
  predicate ItemOk(m: Catalog, item: Attribute) {
    var p := InversePath(m, item, false);
    && p.Ends?
    && (p.invitem.Some? ==>
          var back := InversePath(m, p.invitem.value, true);
          back.Ends? && back.invitem.Some? && Alike(back.invitem.value, item))
  }

  /** checkInversePath. */
  method CheckInversePath(m: Catalog, item: Attribute, mandatory: bool) returns (s: Status, invitem: Option<Attribute>)
    ensures s == Failed(Error.NoInverse) <==> !Directed(m, item.spec) && mandatory
    ensures s == Failed(UnknownClass) <==> item.spec.Names? && item.spec.cls !in m
    ensures s == Failed(UnknownAttribute) <==>
      item.spec.Names? && item.spec.cls in m && forall a | a in m[item.spec.cls].items :: a.name != item.spec.attr
    ensures s.Failed? ==> s.error in {Error.NoInverse, UnknownClass, UnknownAttribute}
    ensures s.Success? ==> (invitem.Some? <==> Directed(m, item.spec))
    ensures s.Success? && invitem.Some? && item.spec.Set? ==> invitem.value == m[item.spec.cls].items[item.spec.num]
    ensures s.Success? && item.spec.Names? ==> LastNamed(m[item.spec.cls].items, item.spec.attr, invitem.value)
    ensures s.Success? <==> InversePath(m, item, mandatory).Ends?
    ensures s.Success? ==> invitem == InversePath(m, item, mandatory).invitem
    ensures s.Failed? ==> s.error == InversePath(m, item, mandatory).error
  {
    if !Directed(m, item.spec) {
      return if mandatory then Failed(Error.NoInverse) else Success, None;
    }
    match item.spec {
      case Set(c, k) =>
        return Success, Some(m[c].items[k]);
      case Names(c, f) =>
        if c !in m {
          return Failed(UnknownClass), None;
        }
        invitem := GetAttribute(m[c].items, f);
        return if invitem.None? then Failed(UnknownAttribute) else Success, invitem;
    }
  }

  /** The directive of `a` leads to `b`: the last attribute of that name, or the attribute at that place,
      of the class that the directive gives. */
  ghost predicate DirectsTo(m: Catalog, a: Attribute, b: Attribute) {
    match a.spec
    case NoInverse => false
    case Names(c, f) => c in m && LastNamed(m[c].items, f, b)
    case Set(c, k) => c in m && k < |m[c].items| && m[c].items[k] == b
  }

  /** An attribute set to a class or a place that is not there counts as having no directive. */
  ghost predicate Undirected(m: Catalog, a: Attribute) {
    a.spec.NoInverse? || (a.spec.Set? && (a.spec.cls !in m || |m[a.spec.cls].items| <= a.spec.num))
  }

  /** The directive leads to an attribute whose own directive leads to one with the same number, name,
      dimensions and type. */
  ghost predicate ComesBack(m: Catalog, a: Attribute) {
    exists inv, back :: DirectsTo(m, a, inv) && DirectsTo(m, inv, back)
        && back.num == a.num && back.name == a.name && back.dims == a.dims && back.cls == a.cls
  }

  lemma {:induction false} FindsIt(items: seq<Attribute>, name: string, i: nat)
    requires i < |items| && items[i].name == name && forall j | i < j < |items| :: items[j].name != name
    ensures Find(items, name) == Some(items[i])
  {
    var n := |items| - 1;
    if i < n {
      FindsIt(items[..n], name, i);
    }
  }

  lemma {:induction false} FoundLast(items: seq<Attribute>, name: string) returns (i: nat)
    requires Find(items, name).Some?
    ensures i < |items| && items[i] == Find(items, name).value && items[i].name == name
    ensures forall j | i < j < |items| :: items[j].name != name
  {
    i := |items| - 1;
    if items[i].name != name {
      i := FoundLast(items[..|items| - 1], name);
    }
  }

  lemma FindsLastNamed(items: seq<Attribute>, name: string, a: Attribute)
    ensures LastNamed(items, name, a) <==> Find(items, name) == Some(a)
  {
    if LastNamed(items, name, a) {
      var i :| 0 <= i < |items| && items[i] == a && a.name == name
          && forall j | i < j < |items| :: items[j].name != name;
      FindsIt(items, name, i);
    }
    if Find(items, name) == Some(a) {
      var i := FoundLast(items, name);
    }
  }

  /** A directive leads to one attribute at most, the one the path ends at. */
  lemma PathDirects(m: Catalog, a: Attribute, mandatory: bool, b: Attribute)
    ensures DirectsTo(m, a, b) <==> InversePath(m, a, mandatory) == Ends(Some(b))
    ensures Undirected(m, a) <==> !Directed(m, a.spec)
  {
    if a.spec.Names? && a.spec.cls in m {
      FindsLastNamed(m[a.spec.cls].items, a.spec.attr, b);
    }
  }

  /** What the check asks of an attribute, said of the attributes that directives lead to. */
  lemma OkExactly(m: Catalog, item: Attribute)
    ensures ItemOk(m, item) <==> Undirected(m, item) || ComesBack(m, item)
  {
    var p := InversePath(m, item, false);
    PathDirects(m, item, false, item);
    if ComesBack(m, item) {
      var inv, back :| DirectsTo(m, item, inv) && DirectsTo(m, inv, back)
        && back.num == item.num && back.name == item.name && back.dims == item.dims && back.cls == item.cls;
      PathDirects(m, item, false, inv);
      PathDirects(m, inv, true, back);
    }
    if ItemOk(m, item) && p.invitem.Some? {
      var inv := p.invitem.value;
      var back := InversePath(m, inv, true).invitem.value;
      PathDirects(m, item, false, inv);
      PathDirects(m, inv, true, back);
    }
  }

  /** An attribute of the class, or the one that its directive leads to. */
  ghost predicate OnThePath(m: Catalog, c: Class, a: Attribute) {
    exists item :: item in c.items && (a == item || DirectsTo(m, item, a))
  }

  /** AgregatClass::checkInverse: attributes without a directive are passed over. */
  method CheckInverse(m: Catalog, c: Class) returns (s: Status)
    ensures s.Success? <==> forall item | item in c.items :: ItemOk(m, item)
    ensures s.Success? <==> forall item | item in c.items :: Undirected(m, item) || ComesBack(m, item)
    ensures s.Failed? ==> s.error in {Error.NoInverse, UnknownClass, UnknownAttribute, InverseMismatch}
    ensures s == Failed(InverseMismatch) ==>
      exists item, inv, back :: item in c.items && DirectsTo(m, item, inv) && DirectsTo(m, inv, back)
          && !(back.num == item.num && back.name == item.name && back.dims == item.dims && back.cls == item.cls)
    ensures s == Failed(Error.NoInverse) ==>
      exists item, inv :: item in c.items && DirectsTo(m, item, inv) && Undirected(m, inv)
    ensures s == Failed(UnknownClass) ==>
      exists a :: OnThePath(m, c, a) && a.spec.Names? && a.spec.cls !in m
    ensures s == Failed(UnknownAttribute) ==>
      exists a :: OnThePath(m, c, a) && a.spec.Names? && a.spec.cls in m
          && forall b | b in m[a.spec.cls].items :: b.name != a.spec.attr
  {
    forall item
      ensures ItemOk(m, item) <==> Undirected(m, item) || ComesBack(m, item)
    {
      OkExactly(m, item);
    }
    for i := 0 to |c.items|
      invariant forall item | item in c.items[..i] :: ItemOk(m, item)
    {
      var item := c.items[i];
      assert item in c.items;
      assert OnThePath(m, c, item);
      var s1, invitem := CheckInversePath(m, item, false);
      :- s1;
      if invitem.Some? {
        PathDirects(m, item, false, invitem.value);
        PathDirects(m, invitem.value, true, item);
        assert OnThePath(m, c, invitem.value);
        var s2, back := CheckInversePath(m, invitem.value, true);
        :- s2;
        PathDirects(m, invitem.value, true, back.value);
        if !Alike(back.value, item) {
          return Failed(InverseMismatch);
        }
      }
    }
    return Success;
  }

  /** Every class passes the check. */
  ghost predicate Checked(m: Catalog) {
    forall c <- m, item | item in m[c].items :: ItemOk(m, item)
  }

  ghost predicate InCatalog(m: Catalog, a: Attribute) {
    exists c :: c in m && a in m[c].items
  }

  ghost predicate HasInverse(m: Catalog, a: Attribute) {
    InversePath(m, a, false).Ends? && InversePath(m, a, false).invitem.Some?
  }

  ghost function Inverse(m: Catalog, a: Attribute): Attribute
    requires HasInverse(m, a)
  {
    InversePath(m, a, false).invitem.value
  }

  /** The inverse of an inverse exists and is an attribute alike to the one started from. */
  lemma InverseOfInverse(m: Catalog, a: Attribute)
    requires Checked(m) && InCatalog(m, a) && HasInverse(m, a)
    ensures InCatalog(m, Inverse(m, a)) && HasInverse(m, Inverse(m, a))
    ensures Alike(Inverse(m, Inverse(m, a)), a)
  {
    var c :| c in m && a in m[c].items;
    assert ItemOk(m, a);
  }

  datatype Route = OneOne | OneN | NOne | NN

  /** inverse_realize's choice, given which types are collections. */
  function RouteOf(a: Attribute, inv: Attribute, colls: set<string>): Route {
    if a.cls in colls then (if inv.cls in colls then NN else NOne)
    else (if inv.cls in colls then OneN else OneOne)
  }

  function Dual(r: Route): Route {
    match r
    case OneN => NOne
    case NOne => OneN
    case _ => r
  }

  /** The two ends of a relationship are always routed to each other's counterpart. */
  lemma RoutedDually(m: Catalog, a: Attribute, colls: set<string>)
    requires Checked(m) && InCatalog(m, a) && HasInverse(m, a)
    ensures HasInverse(m, Inverse(m, a))
    ensures var b := Inverse(m, a); RouteOf(b, Inverse(m, b), colls) == Dual(RouteOf(a, b, colls))
  {
    InverseOfInverse(m, a);
  }

  /** Within the list of a class, an attribute is known by its number. */
  ghost predicate Numbered(m: Catalog) {
    forall c <- m, i, j | 0 <= i < j < |m[c].items| :: m[c].items[i].num != m[c].items[j].num
  }

  /** The class that the directive of `b` gives has `a` among its attributes, inherited or its own. */
  predicate LeadsBack(m: Catalog, b: Attribute, a: Attribute) {
    !b.spec.NoInverse? && b.spec.cls in m && a in m[b.spec.cls].items
  }

  /** "Inverse of" leads back to the same attribute exactly when the directive of the inverse gives a
      class that has the attribute, which the check does not ask. */
  lemma InvolutionExactly(m: Catalog, a: Attribute)
    requires Checked(m) && Numbered(m) && InCatalog(m, a) && HasInverse(m, a)
    ensures HasInverse(m, Inverse(m, a))
    ensures Inverse(m, Inverse(m, a)) == a <==> LeadsBack(m, Inverse(m, a), a)
  {
    InverseOfInverse(m, a);
    var b := Inverse(m, a);
    assert Inverse(m, b) in m[b.spec.cls].items;
    if LeadsBack(m, b, a) {
      var items := m[b.spec.cls].items;
      var i :| 0 <= i < |items| && items[i] == a;
      var j :| 0 <= j < |items| && items[j] == Inverse(m, b);
      assert items[i].num == items[j].num;
    }
  }

  /** Where no two attributes with an inverse are alike, the check makes it an involution. */
  lemma InvolutionWhenTelling(m: Catalog, a: Attribute)
    requires Checked(m) && InCatalog(m, a) && HasInverse(m, a)
    requires forall b | InCatalog(m, b) && HasInverse(m, b) && Alike(a, b) :: a == b
    ensures HasInverse(m, Inverse(m, a)) && Inverse(m, Inverse(m, a)) == a
  {
    InverseOfInverse(m, a);
    InverseOfInverse(m, Inverse(m, a));
  }

  /** Two classes with an attribute alike, and one inverse between them: every class passes. */
  const OWNER := Attribute("Car", "owner", 0, [1], "Person", Names("Person", "vehicles"))
  const OWNER_2 := OWNER.(owner := "Boat")
  const VEHICLES := Attribute("Person", "vehicles", 1, [1], "set<Vehicle>", Names("Car", "owner"))
  const FLEET: Catalog := map["Car" := Class("Car", [OWNER]), "Boat" := Class("Boat", [OWNER_2]),
                              "Person" := Class("Person", [VEHICLES])]

  lemma BoatsBelongToNobody()
    ensures Checked(FLEET) && InCatalog(FLEET, OWNER_2) && HasInverse(FLEET, OWNER_2)
    ensures HasInverse(FLEET, VEHICLES) && Inverse(FLEET, OWNER_2) == VEHICLES
    ensures Inverse(FLEET, VEHICLES) == OWNER != OWNER_2
  {
    assert Find(FLEET["Person"].items, "vehicles") == Some(VEHICLES);
    assert Find(FLEET["Car"].items, "owner") == Some(OWNER);
    assert OWNER_2 in FLEET["Boat"].items;
  }

  /** Classes as the database gives them back: a self-inverse attribute, and a class that inherits it. */
  const SPOUSE := Attribute("Person", "spouse", 0, [1], "Person", Set("Person", 0))
  const STUDENTS: Catalog := map["Person" := Class("Person", [SPOUSE]), "Student" := Class("Student", [SPOUSE])]

  lemma SpouseOfSpouse()
    ensures Checked(STUDENTS) && Numbered(STUDENTS) && InCatalog(STUDENTS, SPOUSE) && HasInverse(STUDENTS, SPOUSE)
    ensures LeadsBack(STUDENTS, SPOUSE, SPOUSE) && Inverse(STUDENTS, Inverse(STUDENTS, SPOUSE)) == SPOUSE
  {
    assert SPOUSE in STUDENTS["Person"].items;
  }

  /** A class that redeclares an attribute it inherits: a directive finds its own. */
  const MANAGER := Attribute("Employee", "boss", 0, [1], "Employee", Names("Team", "lead"))
  const MANAGER_2 := Attribute("Director", "boss", 1, [1], "Director", Names("Team", "lead"))
  const LEAD := Attribute("Team", "lead", 0, [1], "Director", Names("Director", "boss"))
  const TEAMS: Catalog := map["Director" := Class("Director", [MANAGER, MANAGER_2]), "Team" := Class("Team", [LEAD])]

  lemma OwnBeforeInherited()
    ensures HasInverse(TEAMS, LEAD) && Inverse(TEAMS, LEAD) == MANAGER_2
  {
    assert TEAMS["Director"].items[1] == MANAGER_2;
  }

  // ----- the engine's view of a checked catalog

  /** `all` lists the attributes that have an inverse, each once. */
  ghost predicate Lists(m: Catalog, all: seq<Attribute>) {
    && (forall a :: a in all <==> InCatalog(m, a) && HasInverse(m, a))
    && (forall i, j :: 0 <= i < j < |all| ==> all[i] != all[j])
  }

  ghost function IndexIn(all: seq<Attribute>, a: Attribute): (i: nat)
    requires a in all
    ensures i < |all| && all[i] == a
  {
    var i :| 0 <= i < |all| && all[i] == a;
    i
  }

  /** Attributes become their positions in `all`. */
  ghost function SchemaOf(m: Catalog, all: seq<Attribute>, colls: set<string>): Driver.Schema
    requires Checked(m) && Lists(m, all) && forall a | a in all :: Inverse(m, a) in all
  {
    Driver.Schema(map i: nat | i < |all| :: IndexIn(all, Inverse(m, all[i])),
                  set i: nat | i < |all| && all[i].cls in colls)
  }

  /** A checked catalog in which the directive of each inverse gives a class that has the attribute,
      and whose collection
      attributes are not their own inverses, is a schema the engine keeps coherent. */
  lemma CheckedSchemaIsValid(m: Catalog, all: seq<Attribute>, colls: set<string>)
    requires Checked(m) && Numbered(m) && Lists(m, all)
    requires forall a | a in all :: LeadsBack(m, Inverse(m, a), a)
    requires forall a | a in all && a.cls in colls :: Inverse(m, a) != a
    ensures (forall a | a in all :: Inverse(m, a) in all) && SchemaOf(m, all, colls).Valid()
  {
    forall a | a in all
      ensures HasInverse(m, Inverse(m, a)) && Inverse(m, a) in all && Inverse(m, Inverse(m, a)) == a
    {
      InverseOfInverse(m, a);
      InvolutionExactly(m, a);
    }
    var sch := SchemaOf(m, all, colls);
    forall i | i in sch.inverse
      ensures sch.inverse[i] in sch.inverse && sch.inverse[sch.inverse[i]] == i
    {
      var a := all[i];
      var j := IndexIn(all, Inverse(m, a));
      assert all[IndexIn(all, Inverse(m, all[j]))] == a;
    }
    forall i | i in sch.inverse && i in sch.many
      ensures sch.inverse[i] != i
    {
      assert all[i] in all;
    }
  }
}
