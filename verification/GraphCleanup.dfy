/**
 Clean-up of extracted triples and their conversion to graph nodes and edges (graph_extractor.py).
 `key` stands for casefold and strip of a name; relation types are ASCII.
 */
module GraphCleanup {
  import opened Basics
  import opened Texts

  datatype Entity = Entity(name: string, kind: string, description: string)

  datatype Relation = Relation(source: string, target: string, kind: string, description: string, weight: int)

  datatype Extraction = Extraction(entities: seq<Entity>, relations: seq<Relation>)

  // ---------------------------------------------------------------- relation types

  function Upper(c: char): char { if 'a' <= c <= 'z' then c - 'a' + 'A' else c }

  function TypeChar(c: char): char { if c == ' ' || c == '-' then '_' else Upper(c) }

  function NormalizeType(value: string): string {
    var s := Strip(value);
    seq(|s|, i requires 0 <= i < |s| => TypeChar(s[i]))
  }

  /** Theorem: blanks and hyphens inside the stripped value become underscores, small letters capitals, all else stays. */
  lemma NormalizedChars(value: string)
    ensures |NormalizeType(value)| == |Strip(value)|
    ensures forall i :: 0 <= i < |Strip(value)| ==>
              var c, d := Strip(value)[i], NormalizeType(value)[i];
              if c == ' ' || c == '-' then d == '_'
              else if 'a' <= c <= 'z' then d as int == c as int - 32
              else d == c
  {
  }

  /** Theorem: normalising a relation type twice changes nothing more. */
  lemma NormalizeTwice(value: string)
    ensures NormalizeType(NormalizeType(value)) == NormalizeType(value)
  {
    var s, t := Strip(value), NormalizeType(value);
    StripEnds(value);
    if s != "" {
      assert !IsSpace(TypeChar(s[0])) && !IsSpace(TypeChar(s[|s|-1]));
      assert StripLeft(t) == t && StripRight(t) == t;
    }
    assert forall i :: 0 <= i < |t| ==> TypeChar(t[i]) == t[i];
  }

  // ---------------------------------------------------------------- clean entities

  function Keys(key: string -> string, es: seq<Entity>): set<string> {
    set i | 0 <= i < |es| :: key(es[i].name)
  }

  ghost predicate UniqueKeys(key: string -> string, es: seq<Entity>) {
    forall i, j :: 0 <= i < j < |es| ==> key(es[i].name) != key(es[j].name)
  }

  /** The first entity of each key, in order. */
  function CleanEntities(key: string -> string, es: seq<Entity>): seq<Entity>
    decreases |es|
  {
    if es == [] then []
    else
      var before, last := CleanEntities(key, es[..|es|-1]), es[|es|-1];
      if key(last.name) in Keys(key, before) then before else before + [last]
  }

  lemma KeysSnoc(key: string -> string, es: seq<Entity>, e: Entity)
    ensures Keys(key, es + [e]) == Keys(key, es) + {key(e.name)}
  {
    var more := es + [e];
    assert more[|es|] == e && forall i :: 0 <= i < |es| ==> more[i] == es[i];
  }

  lemma {:induction false} CleanEntitiesFacts(key: string -> string, es: seq<Entity>)
    ensures UniqueKeys(key, CleanEntities(key, es)) && Keys(key, CleanEntities(key, es)) == Keys(key, es)
    decreases |es|
  {
    if es != [] {
      var before, last := es[..|es|-1], es[|es|-1];
      assert es == before + [last];
      CleanEntitiesFacts(key, before);
      KeysSnoc(key, before, last);
      KeysSnoc(key, CleanEntities(key, before), last);
    }
  }

  lemma LastKeyIsNew(key: string -> string, before: seq<Entity>, last: Entity)
    requires UniqueKeys(key, before + [last])
    ensures UniqueKeys(key, before) && key(last.name) !in Keys(key, before)
  {
    var es := before + [last];
    forall i | 0 <= i < |before| ensures before[i] == es[i] && key(es[i].name) != key(es[|before|].name) {
    }
  }

  lemma CleanEntitiesSnoc(key: string -> string, es: seq<Entity>, e: Entity)
    ensures var before := CleanEntities(key, es);
            CleanEntities(key, es + [e]) == if key(e.name) in Keys(key, before) then before else before + [e]
  {
    assert (es + [e])[..|es|] == es;
  }

  lemma {:induction false} CleanEntitiesStay(key: string -> string, es: seq<Entity>)
    requires UniqueKeys(key, es)
    ensures CleanEntities(key, es) == es
    decreases |es|
  {
    if es != [] {
      hide UniqueKeys, Keys, CleanEntities;
      var before, last := es[..|es|-1], es[|es|-1];
      assert es == before + [last];
      LastKeyIsNew(key, before, last);
      CleanEntitiesStay(key, before);
      CleanEntitiesSnoc(key, before, last);
    }
  }

  lemma {:induction false} CleanEntitiesGrow(key: string -> string, es: seq<Entity>, n: nat)
    requires n <= |es|
    ensures CleanEntities(key, es[..n]) <= CleanEntities(key, es)
    decreases |es|
  {
    if n == |es| {
      assert es[..n] == es;
    } else {
      CleanEntitiesGrow(key, es[..|es|-1], n);
      assert es[..|es|-1][..n] == es[..n];
    }
  }

  /** Theorem: of entities with one key the first is kept, behind those kept before it. */
  lemma FirstEntityIsKept(key: string -> string, es: seq<Entity>, p: nat)
    requires p < |es| && key(es[p].name) !in Keys(key, es[..p])
    ensures CleanEntities(key, es[..p]) + [es[p]] <= CleanEntities(key, es)
  {
    CleanEntitiesGrow(key, es, p + 1);
    CleanEntitiesFacts(key, es[..p]);
    assert es[..p+1][..p] == es[..p];
  }

  // ---------------------------------------------------------------- clean relations

  datatype RelationKey = RelationKey(source: string, target: string, kind: string)

  function KeyOf(key: string -> string, r: Relation): RelationKey {
    RelationKey(key(r.source), key(r.target), NormalizeType(r.kind))
  }

  /** Both ends are kept entities, and they are not the same. */
  predicate Valid(key: string -> string, names: set<string>, r: Relation) {
    && key(r.source) != "" && key(r.target) != "" && key(r.source) != key(r.target)
    && key(r.source) in names && key(r.target) in names
  }

  function Clamp(weight: int): int { Max(1, Min(10, weight)) }

  function Cleaned(r: Relation): Relation { r.(kind := NormalizeType(r.kind), weight := Clamp(r.weight)) }

  function RelationKeys(key: string -> string, rs: seq<Relation>): set<RelationKey> {
    set i | 0 <= i < |rs| :: KeyOf(key, rs[i])
  }

  ghost predicate UniqueRelations(key: string -> string, rs: seq<Relation>) {
    forall i, j :: 0 <= i < j < |rs| ==> KeyOf(key, rs[i]) != KeyOf(key, rs[j])
  }

  /** The first valid relation of each key, in order. */
  function CleanRelations(key: string -> string, names: set<string>, rs: seq<Relation>): seq<Relation>
    decreases |rs|
  {
    if rs == [] then []
    else
      var before, last := CleanRelations(key, names, rs[..|rs|-1]), rs[|rs|-1];
      if Valid(key, names, last) && KeyOf(key, last) !in RelationKeys(key, before) then before + [Cleaned(last)] else before
  }

  lemma CleanRelationsSnoc(key: string -> string, names: set<string>, rs: seq<Relation>, r: Relation)
    ensures var before := CleanRelations(key, names, rs);
            CleanRelations(key, names, rs + [r]) ==
            if Valid(key, names, r) && KeyOf(key, r) !in RelationKeys(key, before) then before + [Cleaned(r)] else before
  {
    assert (rs + [r])[..|rs|] == rs;
  }

  lemma CleanedKeepsKey(key: string -> string, r: Relation)
    ensures KeyOf(key, Cleaned(r)) == KeyOf(key, r) && Cleaned(Cleaned(r)) == Cleaned(r)
  {
    NormalizeTwice(r.kind);
  }

  lemma RelationKeysSnoc(key: string -> string, rs: seq<Relation>, r: Relation)
    ensures RelationKeys(key, rs + [r]) == RelationKeys(key, rs) + {KeyOf(key, r)}
  {
    var more := rs + [r];
    assert more[|rs|] == r && forall i :: 0 <= i < |rs| ==> more[i] == rs[i];
  }

  /** The relations of a clean graph over the given entity keys. */
  ghost predicate CleanOver(key: string -> string, names: set<string>, rs: seq<Relation>) {
    && UniqueRelations(key, rs)
    && forall i :: 0 <= i < |rs| ==> Valid(key, names, rs[i]) && Cleaned(rs[i]) == rs[i]
  }

  function ValidKeys(key: string -> string, names: set<string>, rs: seq<Relation>): set<RelationKey> {
    set i | 0 <= i < |rs| && Valid(key, names, rs[i]) :: KeyOf(key, rs[i])
  }

  lemma ValidKeysSnoc(key: string -> string, names: set<string>, rs: seq<Relation>, r: Relation)
    ensures ValidKeys(key, names, rs + [r]) == ValidKeys(key, names, rs) + if Valid(key, names, r) then {KeyOf(key, r)} else {}
  {
    var more := rs + [r];
    assert more[|rs|] == r && forall i :: 0 <= i < |rs| ==> more[i] == rs[i];
  }

  lemma CleanOneMore(key: string -> string, names: set<string>, rs: seq<Relation>, r: Relation)
    requires CleanOver(key, names, rs) && Valid(key, names, r) && KeyOf(key, r) !in RelationKeys(key, rs)
    ensures CleanOver(key, names, rs + [Cleaned(r)])
    ensures RelationKeys(key, rs + [Cleaned(r)]) == RelationKeys(key, rs) + {KeyOf(key, r)}
  {
    CleanedKeepsKey(key, r);
    RelationKeysSnoc(key, rs, Cleaned(r));
    assert forall i :: 0 <= i < |rs| ==> KeyOf(key, rs[i]) in RelationKeys(key, rs);
  }

  /** Theorem: the kept relations are clean, and every valid relation is kept under its key. */
  lemma {:induction false} CleanRelationsFacts(key: string -> string, names: set<string>, rs: seq<Relation>)
    ensures CleanOver(key, names, CleanRelations(key, names, rs))
    ensures RelationKeys(key, CleanRelations(key, names, rs)) == ValidKeys(key, names, rs)
    decreases |rs|
  {
    if rs != [] {
      var before, last := rs[..|rs|-1], rs[|rs|-1];
      assert rs == before + [last];
      CleanRelationsFacts(key, names, before);
      ValidKeysSnoc(key, names, before, last);
      var kept := CleanRelations(key, names, before);
      if Valid(key, names, last) && KeyOf(key, last) !in RelationKeys(key, kept) {
        CleanOneMore(key, names, kept, last);
      }
    }
  }

  lemma {:induction false} CleanRelationsGrow(key: string -> string, names: set<string>, rs: seq<Relation>, n: nat)
    requires n <= |rs|
    ensures CleanRelations(key, names, rs[..n]) <= CleanRelations(key, names, rs)
    decreases |rs|
  {
    if n == |rs| {
      assert rs[..n] == rs;
    } else {
      CleanRelationsGrow(key, names, rs[..|rs|-1], n);
      assert rs[..|rs|-1][..n] == rs[..n];
    }
  }

  /** Theorem: of valid relations with one key the first is kept, normalised, behind those kept before it. */
  lemma FirstRelationIsKept(key: string -> string, names: set<string>, rs: seq<Relation>, p: nat)
    requires p < |rs| && Valid(key, names, rs[p]) && KeyOf(key, rs[p]) !in ValidKeys(key, names, rs[..p])
    ensures CleanRelations(key, names, rs[..p]) + [Cleaned(rs[p])] <= CleanRelations(key, names, rs)
  {
    CleanRelationsGrow(key, names, rs, p + 1);
    CleanRelationsFacts(key, names, rs[..p]);
    assert rs[..p+1][..p] == rs[..p];
  }

  lemma {:induction false} CleanRelationsStay(key: string -> string, names: set<string>, rs: seq<Relation>)
    requires CleanOver(key, names, rs)
    ensures CleanRelations(key, names, rs) == rs
    decreases |rs|
  {
    if rs != [] {
      var before, last := rs[..|rs|-1], rs[|rs|-1];
      assert rs == before + [last] && last == rs[|before|];
      assert forall i :: 0 <= i < |before| ==> before[i] == rs[i];
      CleanRelationsStay(key, names, before);
    }
  }

  ghost predicate Named(key: string -> string, es: seq<Entity>, k: string) {
    exists i :: 0 <= i < |es| && key(es[i].name) == k
  }

  /** The relation has two different ends, both of which name an entity. */
  ghost predicate Links(key: string -> string, es: seq<Entity>, r: Relation) {
    && key(r.source) != "" && key(r.target) != "" && key(r.source) != key(r.target)
    && Named(key, es, key(r.source)) && Named(key, es, key(r.target))
  }

  /** What is kept of a relation: its type is normalised, and its weight brought into 1 to 10. */
  ghost predicate KeptAs(o: Relation, r: Relation) {
    && r.source == o.source && r.target == o.target && r.description == o.description && r.kind == NormalizeType(o.kind)
    && (if o.weight < 1 then r.weight == 1 else if o.weight > 10 then r.weight == 10 else r.weight == o.weight)
  }

  /** Theorem: every relation kept comes from one of the extraction that links two of its entities. */
  lemma {:induction false} KeptRelationsLink(key: string -> string, es: seq<Entity>, rs: seq<Relation>, i: nat)
    requires i < |CleanRelations(key, Keys(key, es), rs)|
    ensures exists o :: o in rs && Links(key, es, o) && KeptAs(o, CleanRelations(key, Keys(key, es), rs)[i])
    decreases |rs|
  {
    var names := Keys(key, es);
    var before, last := rs[..|rs|-1], rs[|rs|-1];
    assert rs == before + [last];
    if i < |CleanRelations(key, names, before)| {
      KeptRelationsLink(key, es, before, i);
    } else {
      assert Valid(key, names, last) && last in rs;
      assert Links(key, es, last) && KeptAs(last, CleanRelations(key, names, rs)[i]);
    }
  }

  /** Theorem: a relation that links two entities is kept, or one before it with the same ends and type. */
  lemma LinksAreKept(key: string -> string, es: seq<Entity>, rs: seq<Relation>, p: nat)
    requires p < |rs| && Links(key, es, rs[p])
    ensures exists r :: r in CleanRelations(key, Keys(key, es), rs)
              && key(r.source) == key(rs[p].source) && key(r.target) == key(rs[p].target) && r.kind == NormalizeType(rs[p].kind)
  {
    var names, k := Keys(key, es), KeyOf(key, rs[p]);
    assert Valid(key, names, rs[p]) by {
      NamedIsKey(key, es, key(rs[p].source));
      NamedIsKey(key, es, key(rs[p].target));
    }
    CleanRelationsFacts(key, names, rs);
    var kept := CleanRelations(key, names, rs);
    assert k in RelationKeys(key, kept);
    hide CleanRelations, NormalizeType;
    var i :| 0 <= i < |kept| && KeyOf(key, kept[i]) == k;
    assert Cleaned(kept[i]) == kept[i] && kept[i] in kept;
  }

  lemma NamedIsKey(key: string -> string, es: seq<Entity>, k: string)
    ensures Named(key, es, k) <==> k in Keys(key, es)
  {
  }

  // ---------------------------------------------------------------- the clean-up

  function Clean(key: string -> string, x: Extraction): Extraction {
    var es := CleanEntities(key, x.entities);
    Extraction(es, CleanRelations(key, Keys(key, es), x.relations))
  }

  ghost predicate IsClean(key: string -> string, x: Extraction) {
    UniqueKeys(key, x.entities) && CleanOver(key, Keys(key, x.entities), x.relations)
  }

  /** Theorem: the result is clean and has the keys of all entities and of all valid relations. */
  lemma CleanIsClean(key: string -> string, x: Extraction)
    ensures IsClean(key, Clean(key, x))
    ensures Keys(key, Clean(key, x).entities) == Keys(key, x.entities)
    ensures RelationKeys(key, Clean(key, x).relations) == ValidKeys(key, Keys(key, x.entities), x.relations)
  {
    CleanEntitiesFacts(key, x.entities);
    CleanRelationsFacts(key, Keys(key, x.entities), x.relations);
  }

  /** Theorem: exactly the clean extractions are left as they are; so cleaning twice is cleaning once. */
  lemma CleanTwice(key: string -> string, x: Extraction)
    ensures Clean(key, x) == x <==> IsClean(key, x)
    ensures Clean(key, Clean(key, x)) == Clean(key, x)
  {
    CleanIsClean(key, x);
    CleanStays(key, Clean(key, x));
    if IsClean(key, x) {
      CleanStays(key, x);
    }
  }

  lemma CleanStays(key: string -> string, x: Extraction)
    requires IsClean(key, x)
    ensures Clean(key, x) == x
  {
    CleanEntitiesStay(key, x.entities);
    CleanRelationsStay(key, Keys(key, x.entities), x.relations);
  }

  method KeepEntities(es: seq<Entity>, key: string -> string) returns (kept: seq<Entity>, names: set<string>)
    ensures kept == CleanEntities(key, es) && names == Keys(key, kept)
  {
    kept, names := [], {};
    assert Keys(key, []) == {};
    for i := 0 to |es|
      invariant kept == CleanEntities(key, es[..i]) && names == Keys(key, kept)
    {
      assert es[..i+1][..i] == es[..i];
      KeysSnoc(key, kept, es[i]);
      if key(es[i].name) !in names {
        names := names + {key(es[i].name)};
        kept := kept + [es[i]];
      }
    }
    assert es[..|es|] == es;
  }

  method KeepRelations(rs: seq<Relation>, names: set<string>, key: string -> string) returns (kept: seq<Relation>)
    ensures kept == CleanRelations(key, names, rs)
  {
    kept := [];
    var seen: set<RelationKey> := {};
    assert RelationKeys(key, []) == {} && CleanRelations(key, names, rs[..0]) == [];
    hide CleanRelations, RelationKeys, NormalizeType;
    for i := 0 to |rs|
      invariant kept == CleanRelations(key, names, rs[..i]) && seen == RelationKeys(key, kept)
    {
      assert rs[..i+1] == rs[..i] + [rs[i]];
      CleanRelationsSnoc(key, names, rs[..i], rs[i]);
      var r := rs[i];
      var source, target := key(r.source), key(r.target);
      if source == "" || target == "" || source == target || source !in names || target !in names {
        continue;
      }
      var kind := NormalizeType(r.kind);
      if RelationKey(source, target, kind) in seen {
        continue;
      }
      CleanedKeepsKey(key, r);
      RelationKeysSnoc(key, kept, Cleaned(r));
      seen := seen + {RelationKey(source, target, kind)};
      kept := kept + [Relation(r.source, r.target, kind, r.description, Max(1, Min(10, r.weight)))];
    }
    assert rs[..|rs|] == rs;
  }

  method DedupeAndValidate(x: Extraction, key: string -> string) returns (clean: Extraction)
    ensures clean == Clean(key, x)
  {
    var entities, names := KeepEntities(x.entities, key);
    var relations := KeepRelations(x.relations, names, key);
    clean := Extraction(entities, relations);
  }

  // ---------------------------------------------------------------- nodes and edges

  /** Node ids are "node_1", "node_2", ...; here their numbers. */
  datatype Node = Node(id: nat, name: string, kind: string, content: string, chunk: Option<string>)

  datatype Edge = Edge(source: nat, target: nat, kind: string, description: string, weight: real)

  /** The id of the last entity with the key; 0 if there is none. */
  function IdOf(key: string -> string, es: seq<Entity>, k: string): nat {
    if es == [] then 0 else if key(es[|es|-1].name) == k then |es| else IdOf(key, es[..|es|-1], k)
  }

  lemma {:induction false} IdOfFacts(key: string -> string, es: seq<Entity>, k: string)
    ensures IdOf(key, es, k) <= |es| && (IdOf(key, es, k) == 0 <==> k !in Keys(key, es))
    ensures IdOf(key, es, k) > 0 ==> key(es[IdOf(key, es, k)-1].name) == k
    ensures forall j :: IdOf(key, es, k) <= j < |es| ==> key(es[j].name) != k
    decreases |es|
  {
    if es != [] {
      var before, last := es[..|es|-1], es[|es|-1];
      assert es == before + [last];
      KeysSnoc(key, before, last);
      IdOfFacts(key, before, k);
    }
  }

  function EdgesOf(key: string -> string, es: seq<Entity>, rs: seq<Relation>): seq<Edge>
    decreases |rs|
  {
    if rs == [] then []
    else
      var before, r := EdgesOf(key, es, rs[..|rs|-1]), rs[|rs|-1];
      var source, target := IdOf(key, es, key(r.source)), IdOf(key, es, key(r.target));
      if source == 0 || target == 0 then before
      else before + [Edge(source, target, r.kind, r.description, r.weight as real / 10.0)]
  }

  /** The edge stands for the relation: its ends are the nodes of the entities the relation names. */
  ghost predicate Represents(key: string -> string, es: seq<Entity>, e: Edge, r: Relation) {
    && 1 <= e.source <= |es| && key(es[e.source-1].name) == key(r.source)
    && 1 <= e.target <= |es| && key(es[e.target-1].name) == key(r.target)
    && e.source != e.target && e.kind == r.kind && e.description == r.description
    && e.weight == r.weight as real / 10.0 && 0.1 <= e.weight <= 1.0
  }

  function EdgeOf(key: string -> string, es: seq<Entity>, r: Relation): Edge {
    Edge(IdOf(key, es, key(r.source)), IdOf(key, es, key(r.target)), r.kind, r.description, r.weight as real / 10.0)
  }

  lemma EdgeOfValid(key: string -> string, es: seq<Entity>, r: Relation)
    requires Valid(key, Keys(key, es), r) && r.weight == Clamp(r.weight)
    ensures Represents(key, es, EdgeOf(key, es, r), r)
  {
    IdOfFacts(key, es, key(r.source));
    IdOfFacts(key, es, key(r.target));
  }

  lemma EdgesSnoc(key: string -> string, es: seq<Entity>, rs: seq<Relation>, r: Relation)
    requires Represents(key, es, EdgeOf(key, es, r), r)
    ensures EdgesOf(key, es, rs + [r]) == EdgesOf(key, es, rs) + [EdgeOf(key, es, r)]
  {
    assert (rs + [r])[..|rs|] == rs;
  }

  lemma CleanOverPrefix(key: string -> string, names: set<string>, rs: seq<Relation>, r: Relation)
    requires CleanOver(key, names, rs + [r])
    ensures CleanOver(key, names, rs) && Valid(key, names, r) && r.weight == Clamp(r.weight)
  {
    var more := rs + [r];
    assert more[|rs|] == r && Cleaned(more[|rs|]).weight == r.weight;
    assert forall i :: 0 <= i < |rs| ==> more[i] == rs[i];
  }

  /** The relations both of whose ends name an entity. */
  function Joining(key: string -> string, es: seq<Entity>, rs: seq<Relation>): seq<Relation>
    decreases |rs|
  {
    if rs == [] then []
    else
      var r := rs[|rs|-1];
      Joining(key, es, rs[..|rs|-1]) + if key(r.source) in Keys(key, es) && key(r.target) in Keys(key, es) then [r] else []
  }

  /** The edge joins the nodes of the last entities that bear the names of its relation. */
  ghost predicate Joins(key: string -> string, es: seq<Entity>, e: Edge, r: Relation) {
    && 1 <= e.source <= |es| && key(es[e.source-1].name) == key(r.source)
    && (forall j :: e.source <= j < |es| ==> key(es[j].name) != key(r.source))
    && 1 <= e.target <= |es| && key(es[e.target-1].name) == key(r.target)
    && (forall j :: e.target <= j < |es| ==> key(es[j].name) != key(r.target))
    && e.kind == r.kind && e.description == r.description && e.weight == r.weight as real / 10.0
  }

  /** Theorem: of any extraction, clean or not, the relations with two named ends have one edge each, in order, and no others. */
  lemma {:induction false} EdgesAreJoining(key: string -> string, es: seq<Entity>, rs: seq<Relation>)
    ensures |EdgesOf(key, es, rs)| == |Joining(key, es, rs)|
    ensures forall i :: 0 <= i < |Joining(key, es, rs)| ==> Joins(key, es, EdgesOf(key, es, rs)[i], Joining(key, es, rs)[i])
    decreases |rs|
  {
    if rs != [] {
      var before, r := rs[..|rs|-1], rs[|rs|-1];
      EdgesAreJoining(key, es, before);
      IdOfFacts(key, es, key(r.source));
      IdOfFacts(key, es, key(r.target));
      var named := key(r.source) in Keys(key, es) && key(r.target) in Keys(key, es);
      assert EdgesOf(key, es, rs) == EdgesOf(key, es, before) + if named then [EdgeOf(key, es, r)] else [];
      assert named ==> Joins(key, es, EdgeOf(key, es, r), r);
      hide EdgesOf, EdgeOf, Joins, Keys, IdOf;
    }
  }

  /** Theorem: a clean extraction loses nothing: each relation has one edge, in order, between the right nodes. */
  lemma {:induction false} EveryRelationHasAnEdge(key: string -> string, es: seq<Entity>, rs: seq<Relation>)
    requires CleanOver(key, Keys(key, es), rs)
    ensures |EdgesOf(key, es, rs)| == |rs|
    ensures forall i :: 0 <= i < |rs| ==> Represents(key, es, EdgesOf(key, es, rs)[i], rs[i])
    decreases |rs|
  {
    if rs != [] {
      var before, r := rs[..|rs|-1], rs[|rs|-1];
      assert rs == before + [r];
      CleanOverPrefix(key, Keys(key, es), before, r);
      EveryRelationHasAnEdge(key, es, before);
      EdgeOfValid(key, es, r);
      EdgesSnoc(key, es, before, r);
    }
  }

  /** Theorem: conversion of a cleaned extraction: one node per key, one edge per relation key. */
  lemma NothingIsLost(key: string -> string, x: Extraction)
    ensures var c := Clean(key, x);
            && |EdgesOf(key, c.entities, c.relations)| == |c.relations| == |ValidKeys(key, Keys(key, x.entities), x.relations)|
            && |c.entities| == |Keys(key, x.entities)|
            && forall i :: 0 <= i < |c.relations| ==>
                 Represents(key, c.entities, EdgesOf(key, c.entities, c.relations)[i], c.relations[i])
  {
    var c := Clean(key, x);
    CleanIsClean(key, x);
    EveryRelationHasAnEdge(key, c.entities, c.relations);
    CountEntities(key, c.entities);
    CountRelations(key, c.relations);
  }

  lemma CountEntities(key: string -> string, es: seq<Entity>)
    requires UniqueKeys(key, es)
    ensures |Keys(key, es)| == |es|
  {
    var names := seq(|es|, i requires 0 <= i < |es| => key(es[i].name));
    forall k ensures k in Keys(key, es) <==> k in names {
      if k in Keys(key, es) {
        var i :| 0 <= i < |es| && key(es[i].name) == k;
        assert names[i] == k;
      }
    }
    CountWithoutRepeats(names, Keys(key, es));
  }

  lemma CountRelations(key: string -> string, rs: seq<Relation>)
    requires UniqueRelations(key, rs)
    ensures |RelationKeys(key, rs)| == |rs|
  {
    var keys := seq(|rs|, i requires 0 <= i < |rs| => KeyOf(key, rs[i]));
    forall k ensures k in RelationKeys(key, rs) <==> k in keys {
      if k in RelationKeys(key, rs) {
        var i :| 0 <= i < |rs| && KeyOf(key, rs[i]) == k;
        assert keys[i] == k;
      }
    }
    CountWithoutRepeats(keys, RelationKeys(key, rs));
  }

  method ToLegacyGraphResult(x: Extraction, chunk: Option<string>, key: string -> string) returns (nodes: seq<Node>, edges: seq<Edge>)
    ensures |nodes| == |x.entities| && forall i :: 0 <= i < |nodes| ==>
              nodes[i] == Node(i + 1, x.entities[i].name, x.entities[i].kind, x.entities[i].description, chunk)
    ensures edges == EdgesOf(key, x.entities, x.relations)
  {
    nodes, edges := [], [];
    var ids: map<string, nat> := map[];
    for i := 0 to |x.entities|
      invariant |nodes| == i && forall j :: 0 <= j < i ==>
                  nodes[j] == Node(j + 1, x.entities[j].name, x.entities[j].kind, x.entities[j].description, chunk)
      invariant forall k: string :: IdOf(key, x.entities[..i], k) == if k in ids then ids[k] else 0
    {
      assert x.entities[..i+1][..i] == x.entities[..i];
      ids := ids[key(x.entities[i].name) := i + 1];
      nodes := nodes + [Node(i + 1, x.entities[i].name, x.entities[i].kind, x.entities[i].description, chunk)];
    }
    assert x.entities[..|x.entities|] == x.entities;
    edges := ToEdges(x.entities, x.relations, ids, key);
  }

  method ToEdges(es: seq<Entity>, rs: seq<Relation>, ids: map<string, nat>, key: string -> string) returns (edges: seq<Edge>)
    requires forall k: string :: IdOf(key, es, k) == if k in ids then ids[k] else 0
    ensures edges == EdgesOf(key, es, rs)
  {
    edges := [];
    for i := 0 to |rs|
      invariant edges == EdgesOf(key, es, rs[..i])
    {
      assert rs[..i+1][..i] == rs[..i];
      var r := rs[i];
      var source, target := key(r.source), key(r.target);
      assert IdOf(key, es, source) == if source in ids then ids[source] else 0;
      assert IdOf(key, es, target) == if target in ids then ids[target] else 0;
      if source in ids && target in ids && ids[source] > 0 && ids[target] > 0 {
        edges := edges + [Edge(ids[source], ids[target], r.kind, r.description, r.weight as real / 10.0)];
      }
    }
    assert rs[..|rs|] == rs;
  }
}
