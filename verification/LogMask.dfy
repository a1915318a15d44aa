/**
  maskSensitiveFields, internal/middleware/logger.go:17-28 and 191-216: hiding secrets in a decoded request body
  before it is logged.

  `Masked` says on JSON trees what masking does; `MaskFields` does it in place, on the objects of the heap.
 */
module LogMask {
  import opened JsonValues

  const SENSITIVE: seq<string> :=
    ["password", "token", "secret", "authorization", "api_key", "access_token", "refresh_token"]

  const MASK := Str("***MASKED***")

  predicate Sensitive(key: string) {
    key in SENSITIVE
  }

  /** The seven names, and what is logged instead of what they hold. */
  lemma SensitiveIff(key: string)
    ensures Sensitive(key) <==> key == "password" || key == "token" || key == "secret" || key == "authorization"
                                || key == "api_key" || key == "access_token" || key == "refresh_token"
    ensures MASK == Str("***MASKED***")
  {
    assert SENSITIVE[0] == "password" && SENSITIVE[1] == "token" && SENSITIVE[2] == "secret";
    assert SENSITIVE[3] == "authorization" && SENSITIVE[4] == "api_key";
    assert SENSITIVE[5] == "access_token" && SENSITIVE[6] == "refresh_token";
  }

  /**
    What becomes of a value under a key that is not sensitive: objects, and objects directly in an array, are masked.
   */
  function Descended(v: Json): Json
    decreases v, 1
  {
    match v
    case Obj(_) => Masked(v)
    case Arr(items) =>
      Arr(seq(|items|, i requires 0 <= i < |items| => if items[i].Obj? then Masked(items[i]) else items[i]))
    case _ => v
  }

  function Masked(j: Json): Json
    requires j.Obj?
    ensures Masked(j).Obj?
    decreases j, 0
  {
    Obj(map k | k in j.fields :: MaskedField(k, j.fields[k]))
  }

  function MaskedField(key: string, v: Json): Json
    decreases v, 2
  {
    if Sensitive(key) then MASK else Descended(v)
  }

  method IsSensitive(key: string) returns (found: bool)
    ensures found <==> Sensitive(key)
  {
    for i := 0 to |SENSITIVE|
      invariant key !in SENSITIVE[..i]
    {
      if key == SENSITIVE[i] {
        return true;
      }
    }
    return false;
  }

  // ---------------------------------------------------------------- in place

  /** A decoded JSON object: a Go map, shared by reference and updated in place. */
  class JsonObject {
    var fields: map<string, Value>
  }

  datatype Value = Leaf(json: Json) | Object(obj: JsonObject) | Array(items: seq<Value>)

  /** Which objects a decoded body consists of, and how they hang together. */
  datatype Tree = Tip(json: Json) | Node(obj: JsonObject, kids: map<string, Tree>) | Items(items: seq<Tree>)

  function ValueOf(t: Tree): Value {
    match t
    case Tip(j) => Leaf(j)
    case Node(o, _) => Object(o)
    case Items(items) => Array(seq(|items|, i requires 0 <= i < |items| => ValueOf(items[i])))
  }

  function ToJson(t: Tree): Json {
    match t
    case Tip(j) => j
    case Node(_, kids) => Obj(map k | k in kids :: ToJson(kids[k]))
    case Items(items) => Arr(seq(|items|, i requires 0 <= i < |items| => ToJson(items[i])))
  }

  ghost function Objects(t: Tree): set<object> {
    match t
    case Tip(_) => {}
    case Node(o, kids) => {o} + set k, x | k in kids && x in Objects(kids[k]) :: x
    case Items(items) => set i, x | 0 <= i < |items| && x in Objects(items[i]) :: x
  }

  /** A decoder makes a new object for every brace: no object occurs twice in the tree, and leaves are leaves. */
  ghost predicate Decoded(t: Tree) {
    match t
    case Tip(j) => !j.Obj? && !j.Arr?
    case Node(o, kids) =>
      && (forall k :: k in kids ==> Decoded(kids[k]) && o !in Objects(kids[k]))
      && (forall k, l :: k in kids && l in kids && k != l ==> Objects(kids[k]) !! Objects(kids[l]))
    case Items(items) =>
      && (forall i :: 0 <= i < |items| ==> Decoded(items[i]))
      && (forall i, j :: 0 <= i < j < |items| ==> Objects(items[i]) !! Objects(items[j]))
  }

  /** The objects hold what the tree says. */
  ghost predicate InHeap(t: Tree)
    reads Objects(t)
  {
    match t
    case Tip(_) => true
    case Node(o, kids) =>
      o.fields.Keys == kids.Keys && forall k :: k in kids ==> o.fields[k] == ValueOf(kids[k]) && InHeap(kids[k])
    case Items(items) => forall i :: 0 <= i < |items| ==> InHeap(items[i])
  }

  function DescendedTree(t: Tree): Tree
    decreases t, 1
  {
    match t
    case Node(_, _) => MaskedTree(t)
    case Items(items) => Items(seq(|items|, i requires 0 <= i < |items| => MaskedItem(items[i])))
    case Tip(_) => t
  }

  function MaskedItem(t: Tree): Tree
    decreases t, 1
  {
    if t.Node? then MaskedTree(t) else t
  }

  function MaskedTree(t: Tree): Tree
    requires t.Node?
    decreases t, 0
  {
    Node(t.obj, map k | k in t.kids :: MaskedKid(k, t.kids[k]))
  }

  function MaskedKid(key: string, t: Tree): Tree
    decreases t, 2
  {
    if Sensitive(key) then Tip(MASK) else DescendedTree(t)
  }

  /** Masking the tree is masking the body it stands for. */
  lemma {:induction false} DescendedTreeJson(t: Tree)
    requires Decoded(t)
    ensures ToJson(DescendedTree(t)) == Descended(ToJson(t))
    ensures t.Node? ==> ToJson(MaskedTree(t)) == Masked(ToJson(t))
  {
    match t
    case Node(_, kids) =>
      forall k | k in kids ensures ToJson(MaskedKid(k, kids[k])) == MaskedField(k, ToJson(kids[k])) {
        DescendedTreeJson(kids[k]);
      }
      assert Masked(ToJson(t)).fields == ToJson(MaskedTree(t)).fields;
    case Items(items) =>
      forall i | 0 <= i < |items| ensures items[i].Node? <==> ToJson(items[i]).Obj?
      {
        assert Decoded(items[i]);
      }
      forall i | 0 <= i < |items| && items[i].Node?
        ensures ToJson(MaskedTree(items[i])) == Masked(ToJson(items[i]))
      {
        DescendedTreeJson(items[i]);
      }
      assert ToJson(DescendedTree(t)).items == Descended(ToJson(t)).items;
    case Tip(_) =>
  }

  /** Masking allocates nothing, moves nothing, and may only drop objects. */
  lemma {:induction false} DescendedTreeObjects(t: Tree)
    ensures Objects(DescendedTree(t)) <= Objects(t) && ValueOf(DescendedTree(t)) == ValueOf(t)
  {
    match t
    case Node(_, kids) =>
      forall k | k in kids ensures Objects(MaskedKid(k, kids[k])) <= Objects(kids[k]) {
        DescendedTreeObjects(kids[k]);
      }
    case Items(items) =>
      forall i | 0 <= i < |items|
        ensures Objects(MaskedItem(items[i])) <= Objects(items[i])
        ensures ValueOf(MaskedItem(items[i])) == ValueOf(items[i])
      {
        DescendedTreeObjects(items[i]);
      }
      assert ValueOf(DescendedTree(t)).items == ValueOf(t).items;
    case Tip(_) =>
  }

  twostate lemma AllAllocated(t: Tree)
    ensures forall o :: o in Objects(t) ==> old(allocated(o))
  {
    match t
    case Tip(_) =>
    case Node(_, kids) =>
      forall k | k in kids ensures forall o :: o in Objects(kids[k]) ==> old(allocated(o)) {
        AllAllocated(kids[k]);
      }
    case Items(items) =>
      forall i | 0 <= i < |items| ensures forall o :: o in Objects(items[i]) ==> old(allocated(o)) {
        AllAllocated(items[i]);
      }
  }

  twostate lemma Untouched(t: Tree)
    requires old(InHeap(t))
    requires forall o: object :: o in Objects(t) && old(allocated(o)) ==> unchanged(o)
    ensures InHeap(t)
  {
    AllAllocated(t);
  }

  /** Everything under the keys that are done is masked, everything else is as it was. */
  ghost predicate PartlyMasked(t: Tree, now: map<string, Tree>, todo: set<string>)
    requires t.Node?
  {
    && todo <= t.kids.Keys == now.Keys
    && forall k :: k in t.kids ==> now[k] == if k in todo then t.kids[k] else MaskedKid(k, t.kids[k])
  }

  lemma PartlyMaskedNext(t: Tree, now: map<string, Tree>, todo: set<string>, key: string)
    requires t.Node? && PartlyMasked(t, now, todo) && key in todo
    ensures now.Keys == t.kids.Keys && now[key] == t.kids[key] && Objects(t.kids[key]) <= Objects(t)
    ensures forall k :: k in now ==> now[k] == t.kids[k] || now[k] == MaskedKid(k, t.kids[k])
    ensures PartlyMasked(t, now[key := MaskedKid(key, t.kids[key])], todo - {key})
  {
  }

  ghost predicate HoldsKids(data: JsonObject, kids: map<string, Tree>)
    reads *
  {
    data.fields.Keys == kids.Keys && forall k :: k in kids ==> data.fields[k] == ValueOf(kids[k]) && InHeap(kids[k])
  }

  /** maskSensitiveFields: the objects of the body are updated where they are. */
  method MaskFields(data: JsonObject, ghost t: Tree)
    requires t.Node? && t.obj == data && Decoded(t) && InHeap(t)
    modifies Objects(t)
    ensures InHeap(MaskedTree(t)) && ToJson(MaskedTree(t)) == Masked(ToJson(t))
    decreases t, 1
  {
    MaskKeys(data, t);
    DescendedTreeJson(t);
  }

  /** The loop over the keys. */
  method MaskKeys(data: JsonObject, ghost t: Tree)
    requires t.Node? && t.obj == data && Decoded(t) && HoldsKids(data, t.kids)
    modifies Objects(t)
    ensures HoldsKids(data, MaskedTree(t).kids)
    decreases t, 0
  {
    ghost var now := t.kids;
    var todo := data.fields.Keys;
    while todo != {}
      invariant PartlyMasked(t, now, todo) && HoldsKids(data, now)
      decreases |todo|
    {
      var key :| key in todo;
      PartlyMaskedNext(t, now, todo, key);
      MaskKeyAmong(data, key, t, now);
      todo := todo - {key};
      now := now[key := MaskedKid(key, t.kids[key])];
    }
    assert now == MaskedTree(t).kids;
  }

  /** Masking one value of an object touches no other, masked or not. */
  lemma KidsApart(t: Tree, key: string, k: string)
    requires t.Node? && Decoded(t) && key in t.kids && k in t.kids && k != key
    ensures t.obj !in Objects(t.kids[k]) && Objects(t.kids[k]) !! Objects(t.kids[key])
    ensures t.obj !in Objects(MaskedKid(k, t.kids[k])) && Objects(MaskedKid(k, t.kids[k])) !! Objects(t.kids[key])
  {
    DescendedTreeObjects(t.kids[k]);
  }

  /** One round of the loop over a map. What hangs under a sensitive key is masked too, after it has been unlinked. */
  method MaskKey(data: JsonObject, key: string, ghost kid: Tree)
    requires key in data.fields && data.fields[key] == ValueOf(kid)
    requires data !in Objects(kid) && Decoded(kid) && InHeap(kid)
    modifies data, Objects(kid)
    ensures data.fields == old(data.fields)[key := ValueOf(MaskedKid(key, kid))] && InHeap(MaskedKid(key, kid))
    decreases kid, 3
  {
    var value := data.fields[key];
    var sensitive := IsSensitive(key);
    if sensitive {
      data.fields := data.fields[key := Leaf(MASK)];
    }
    Untouched(kid);
    DescendedTreeObjects(kid);
    MaskValue(value, kid);
  }

  /** The same round, seen from the whole object: the other keys keep what they hold. */
  method MaskKeyAmong(data: JsonObject, key: string, ghost t: Tree, ghost now: map<string, Tree>)
    requires t.Node? && t.obj == data && Decoded(t) && key in t.kids
    requires now.Keys == t.kids.Keys && now[key] == t.kids[key] && HoldsKids(data, now)
    requires forall k :: k in now ==> now[k] == t.kids[k] || now[k] == MaskedKid(k, t.kids[k])
    modifies data, Objects(t.kids[key])
    ensures HoldsKids(data, now[key := MaskedKid(key, t.kids[key])])
    decreases t.kids[key], 4
  {
    ghost var kid := MaskedKid(key, t.kids[key]);
    MaskKey(data, key, t.kids[key]);
    forall k | k in now && k != key ensures InHeap(now[k]) {
      KidsApart(t, key, k);
      Untouched(now[k]);
    }
    HoldsKidsNext(data, now, key, kid);
  }

  lemma HoldsKidsNext(data: JsonObject, now: map<string, Tree>, key: string, kid: Tree)
    requires data.fields.Keys == now.Keys && key in now && data.fields[key] == ValueOf(kid) && InHeap(kid)
    requires forall k :: k in now && k != key ==> data.fields[k] == ValueOf(now[k]) && InHeap(now[k])
    ensures HoldsKids(data, now[key := kid])
  {
  }

  /** The value of one key: a nested object, or an array whose objects are masked one by one. */
  method MaskValue(value: Value, ghost t: Tree)
    requires value == ValueOf(t) && Decoded(t) && InHeap(t)
    modifies Objects(t)
    ensures InHeap(DescendedTree(t))
    decreases t, 2
  {
    match value
    case Object(o) =>
      MaskFields(o, t);
    case Array(items) =>
      ghost var now := t.items;
      for i := 0 to |items|
        invariant |now| == |t.items|
        invariant forall k :: 0 <= k < |now| ==> now[k] == if k < i then MaskedItem(t.items[k]) else t.items[k]
        invariant HoldsItems(now)
      {
        if items[i].Object? {
          MaskItem(items[i].obj, i, t, now);
        }
        now := now[i := MaskedItem(t.items[i])];
      }
      assert now == DescendedTree(t).items;
    case Leaf(_) =>
  }

  ghost predicate HoldsItems(items: seq<Tree>)
    reads *
  {
    forall i :: 0 <= i < |items| ==> InHeap(items[i])
  }

  method MaskItem(item: JsonObject, i: nat, ghost t: Tree, ghost now: seq<Tree>)
    requires t.Items? && Decoded(t) && i < |t.items| == |now| && t.items[i].Node? && t.items[i].obj == item
    requires now[i] == t.items[i] && HoldsItems(now)
    requires forall k :: 0 <= k < |now| ==> now[k] == t.items[k] || now[k] == MaskedItem(t.items[k])
    modifies Objects(t.items[i])
    ensures HoldsItems(now[i := MaskedItem(t.items[i])])
    decreases t.items[i], 2
  {
    MaskFields(item, t.items[i]);
    forall k | 0 <= k < |now| && k != i ensures InHeap(now[k]) {
      ItemsApart(t, i, k);
      Untouched(now[k]);
    }
  }

  lemma ItemsApart(t: Tree, i: nat, k: nat)
    requires t.Items? && Decoded(t) && i < |t.items| && k < |t.items| && i != k
    ensures Objects(t.items[k]) !! Objects(t.items[i]) && Objects(MaskedItem(t.items[k])) !! Objects(t.items[i])
  {
    DescendedTreeObjects(t.items[k]);
    assert Objects(t.items[k]) !! Objects(t.items[i]) by {
      if k < i {
      }
    }
  }

  // ---------------------------------------------------------------- what the result is

  /** Every sensitive key reached through objects and arrays of objects holds the mask. */
  ghost predicate Clean(v: Json) {
    match v
    case Obj(f) => forall k :: k in f ==> if Sensitive(k) then f[k] == MASK else Clean(f[k])
    case Arr(items) => forall i :: 0 <= i < |items| && items[i].Obj? ==> Clean(items[i])
    case _ => true
  }

  /** `w` has the objects, keys, arrays and leaves of `v`; only what lies under sensitive keys may differ. */
  ghost predicate SameButSecrets(v: Json, w: Json) {
    match v
    case Obj(f) =>
      w.Obj? && w.fields.Keys == f.Keys && forall k :: k in f && !Sensitive(k) ==> SameButSecrets(f[k], w.fields[k])
    case Arr(items) =>
      && w.Arr? && |w.items| == |items|
      && forall i :: 0 <= i < |items| ==>
           if items[i].Obj? then SameButSecrets(items[i], w.items[i]) else w.items[i] == items[i]
    case _ => w == v
  }

  lemma {:induction false} DescendedIsClean(v: Json)
    ensures Clean(Descended(v)) && SameButSecrets(v, Descended(v))
  {
    match v
    case Obj(f) =>
      var g := Masked(v).fields;
      forall k | k in g
        ensures g[k] == MaskedField(k, f[k])
        ensures if Sensitive(k) then g[k] == MASK else Clean(g[k]) && SameButSecrets(f[k], g[k])
      {
        DescendedIsClean(f[k]);
      }
      assert Descended(v) == Obj(g);
    case Arr(items) =>
      forall i | 0 <= i < |items| && items[i].Obj?
        ensures Clean(Masked(items[i])) && SameButSecrets(items[i], Masked(items[i]))
      {
        DescendedIsClean(items[i]);
        assert Descended(items[i]) == Masked(items[i]);
      }
    case _ =>
  }

  lemma {:induction false} CleanIsUnique(v: Json, w: Json)
    requires Clean(w) && SameButSecrets(v, w)
    ensures w == Descended(v)
  {
    match v
    case Obj(f) =>
      forall k | k in f ensures w.fields[k] == Masked(v).fields[k] {
        if !Sensitive(k) {
          CleanIsUnique(f[k], w.fields[k]);
        }
      }
    case Arr(items) =>
      var d := Descended(v);
      forall i | 0 <= i < |items| ensures w.items[i] == d.items[i] {
        if items[i].Obj? {
          CleanIsUnique(items[i], w.items[i]);
        }
      }
      assert w.items == d.items;
    case _ =>
  }

  /** Masking a body gives the one body that hides every reachable secret and changes nothing else. */
  lemma MaskingCharacterised(j: Json, w: Json)
    requires j.Obj?
    ensures w == Masked(j) <==> Clean(w) && SameButSecrets(j, w)
  {
    DescendedIsClean(j);
    if Clean(w) && SameButSecrets(j, w) {
      CleanIsUnique(j, w);
    }
  }

  lemma {:induction false} SameAsItself(v: Json)
    ensures SameButSecrets(v, v)
  {
    match v
    case Obj(f) =>
      forall k | k in f ensures SameButSecrets(f[k], f[k]) {
        SameAsItself(f[k]);
      }
    case Arr(items) =>
      forall i | 0 <= i < |items| ensures SameButSecrets(items[i], items[i]) {
        SameAsItself(items[i]);
      }
    case _ =>
  }

  /** Masking twice is masking once. */
  lemma MaskingIsIdempotent(j: Json)
    requires j.Obj?
    ensures Masked(Masked(j)) == Masked(j)
  {
    DescendedIsClean(j);
    SameAsItself(Masked(j));
    CleanIsUnique(Masked(j), Masked(j));
  }

  // ---------------------------------------------------------------- nested arrays

  /** Every sensitive key at any depth at all holds the mask. */
  ghost predicate DeepClean(v: Json)
    decreases v, 0
  {
    match v
    case Obj(f) => forall k :: k in f ==> DeepCleanField(k, f[k])
    case Arr(items) => forall i :: 0 <= i < |items| ==> DeepClean(items[i])
    case _ => true
  }

  ghost predicate DeepCleanField(key: string, v: Json)
    decreases v, 1
  {
    if Sensitive(key) then v == MASK else DeepClean(v)
  }

  /** Arrays that stand directly in arrays hold no secret to begin with. */
  ghost predicate NestedArraysClean(v: Json)
    decreases v, 0
  {
    match v
    case Obj(f) => forall k :: k in f ==> NestedArraysCleanField(k, f[k])
    case Arr(items) =>
      forall i :: 0 <= i < |items| ==> if items[i].Obj? then NestedArraysClean(items[i]) else DeepClean(items[i])
    case _ => true
  }

  ghost predicate NestedArraysCleanField(key: string, v: Json)
    decreases v, 1
  {
    Sensitive(key) || NestedArraysClean(v)
  }

  lemma FullyMaskedObject(v: Json)
    requires v.Obj?
    requires forall k :: k in v.fields ==>
               (DeepCleanField(k, MaskedField(k, v.fields[k])) <==> NestedArraysCleanField(k, v.fields[k]))
    ensures DeepClean(Masked(v)) <==> NestedArraysClean(v)
  {
    var f, g := v.fields, Masked(v).fields;
    assert g.Keys == f.Keys && forall k :: k in f ==> g[k] == MaskedField(k, f[k]);
    assert DeepClean(Masked(v)) <==> forall k :: k in g ==> DeepCleanField(k, g[k]);
  }

  /** Masking hides every secret at every depth exactly when no array directly inside an array holds one. */
  lemma {:induction false} FullyMaskedIff(v: Json)
    ensures DeepClean(Descended(v)) <==> NestedArraysClean(v)
  {
    match v
    case Obj(f) =>
      forall k | k in f
        ensures DeepCleanField(k, MaskedField(k, f[k])) <==> NestedArraysCleanField(k, f[k])
      {
        FullyMaskedIff(f[k]);
      }
      FullyMaskedObject(v);
    case Arr(items) =>
      var d := Descended(v).items;
      forall i | 0 <= i < |items|
        ensures DeepClean(d[i]) <==> if items[i].Obj? then NestedArraysClean(items[i]) else DeepClean(items[i])
      {
        if items[i].Obj? {
          FullyMaskedIff(items[i]);
        }
      }
      assert Descended(v) == Arr(d);
    case _ =>
  }

  /** A secret two arrays deep is logged as it is. */
  lemma NestedArrayLeaks(secret: Json)
    requires secret != MASK
    ensures var body := Obj(map["rows" := Arr([Arr([Obj(map["password" := secret])])])]);
            Masked(body) == body && !DeepClean(Masked(body))
  {
    var inner := Obj(map["password" := secret]);
    var rows := Arr([Arr([inner])]);
    var body := Obj(map["rows" := rows]);
    assert SENSITIVE[0] == "password";
    assert !Sensitive("rows");
    assert !DeepClean(inner) by {
      assert "password" in inner.fields;
    }
    assert !DeepClean(Arr([inner])) by {
      assert Arr([inner]).items[0] == inner;
    }
    assert !DeepClean(rows) by {
      assert rows.items[0] == Arr([inner]);
    }
    assert Descended(rows) == rows;
    assert Masked(body).fields == body.fields;
    assert !DeepClean(body) by {
      assert "rows" in body.fields;
    }
  }
}
