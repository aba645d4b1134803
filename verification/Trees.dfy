/** JSON trees: reading and writing at a path. */
module Trees {
  import opened Options

  datatype Tree<!K> = Null | Flag(flag: bool) | Text(text: string) | List(items: seq<Tree<K>>)
      | Object(fields: map<K, Tree<K>>)

  datatype Step<K> = Field(key: K) | Item(index: nat)

  type Path<K> = seq<Step<K>>

  function Child<K>(t: Tree<K>, step: Step<K>): Option<Tree<K>> {
    match step
    case Field(key) => if t.Object? then Get(t.fields, key) else None
    case Item(index) => if t.List? && index < |t.items| then Some(t.items[index]) else None
  }

  function At<K>(t: Tree<K>, path: Path<K>): Option<Tree<K>> {
    if path == [] then Some(t)
    else
      var child := Child(t, path[0]);
      if child.None? then None else At(child.value, path[1..])
  }

  /** Anything but an object makes way for a new object. */
  function WithChild<K>(t: Tree<K>, step: Step<K>, child: Tree<K>): Tree<K> {
    match step
    case Field(key) => Object((if t.Object? then t.fields else map[])[key := child])
    case Item(index) => if t.List? && index < |t.items| then List(t.items[index := child]) else t
  }

  function SetAt<K>(t: Tree<K>, path: Path<K>, value: Tree<K>): Tree<K>
    decreases |path|
  {
    if path == [] then value else WithChild(t, path[0], SetAt(Child(t, path[0]).GetOr(Null), path[1..], value))
  }

  /** The items on the path exist; objects need not. */
  predicate Reaches<K>(t: Tree<K>, path: Path<K>)
    decreases |path|
  {
    path == [] || ((path[0].Field? || Child(t, path[0]).Some?) && Reaches(Child(t, path[0]).GetOr(Null), path[1..]))
  }

  /** The paths part at two different fields or two different items. */
  predicate Apart<K(==)>(p: Path<K>, q: Path<K>) {
    p != [] && q != [] && if p[0] == q[0] then Apart(p[1..], q[1..]) else p[0].Field? == q[0].Field?
  }

  lemma {:induction false} AtSet<K>(t: Tree<K>, path: Path<K>, value: Tree<K>)
    requires Reaches(t, path)
    ensures At(SetAt(t, path, value), path) == Some(value)
    decreases |path|
  {
    if path != [] {
      AtSet(Child(t, path[0]).GetOr(Null), path[1..], value);
    }
  }

  lemma {:induction false} SetFrame<K>(t: Tree<K>, path: Path<K>, value: Tree<K>, other: Path<K>)
    requires Apart(path, other)
    ensures At(SetAt(t, path, value), other) == At(t, other)
    decreases |path|
  {
    var child := Child(t, path[0]).GetOr(Null);
    if path[0] == other[0] {
      SetFrame(child, path[1..], value, other[1..]);
      if Child(t, path[0]).None? {
        NothingBelowNull(other[1..]);
      }
    }
  }

  lemma NothingBelowNull<K>(path: Path<K>)
    requires path != []
    ensures At<K>(Null, path) == None
  {
  }

  lemma {:induction false} SetSame<K>(t: Tree<K>, path: Path<K>, value: Tree<K>)
    requires At(t, path) == Some(value)
    ensures SetAt(t, path, value) == t
  {
    if path != [] {
      SetSame(Child(t, path[0]).value, path[1..], value);
    }
  }

  lemma {:induction false} AtAppend<K>(t: Tree<K>, p: Path<K>, q: Path<K>)
    ensures At(t, p + q) == if At(t, p).None? then None else At(At(t, p).value, q)
  {
    if p == [] {
      assert p + q == q;
    } else {
      assert (p + q)[1..] == p[1..] + q;
      var child := Child(t, p[0]);
      if child.Some? {
        AtAppend(child.value, p[1..], q);
      }
    }
  }

  lemma AtTwo<K>(t: Tree<K>, a: Step<K>, b: Step<K>)
    ensures At(t, [a]) == Child(t, a)
    ensures At(t, [a, b]) == if Child(t, a).None? then None else Child(Child(t, a).value, b)
  {
    assert [a, b][1..] == [b];
    assert forall u: Tree<K> :: At(u, [b]) == Child(u, b);
  }

  lemma {:induction false} ReachesAppend<K>(t: Tree<K>, p: Path<K>, q: Path<K>)
    requires At(t, p).Some? && forall i :: 0 <= i < |q| ==> q[i].Field?
    ensures Reaches(t, p + q)
  {
    if p == [] {
      assert p + q == q;
      ReachesFields(t, q);
    } else {
      assert (p + q)[1..] == p[1..] + q;
      ReachesAppend(Child(t, p[0]).value, p[1..], q);
    }
  }

  lemma {:induction false} ReachesFields<K>(t: Tree<K>, q: Path<K>)
    requires forall i :: 0 <= i < |q| ==> q[i].Field?
    ensures Reaches(t, q)
    decreases |q|
  {
    if q != [] {
      ReachesFields(Child(t, q[0]).GetOr(Null), q[1..]);
    }
  }

  lemma {:induction false} ApartAppend<K>(p: Path<K>, q: Path<K>, r: Path<K>)
    ensures Apart(p + q, p + r) <==> Apart(q, r)
  {
    if p == [] {
      assert p + q == q && p + r == r;
    } else {
      assert (p + q)[1..] == p[1..] + q && (p + r)[1..] == p[1..] + r;
      ApartAppend(p[1..], q, r);
    }
  }

  lemma {:induction false} ApartExtends<K>(p: Path<K>, q: Path<K>, r: Path<K>, s: Path<K>)
    requires Apart(p, q)
    ensures Apart(p + r, q + s)
  {
    assert (p + r)[0] == p[0] && (q + s)[0] == q[0];
    if p[0] == q[0] {
      assert (p + r)[1..] == p[1..] + r && (q + s)[1..] == q[1..] + s;
      ApartExtends(p[1..], q[1..], r, s);
    }
  }

  lemma {:induction false} ApartSymmetric<K>(p: Path<K>, q: Path<K>)
    requires Apart(p, q)
    ensures Apart(q, p)
  {
    if p[0] == q[0] {
      ApartSymmetric(p[1..], q[1..]);
    }
  }

  /** Writes at a path of fields, making objects where there is nothing; None when something else is in the way. */
  function SetNested<K>(t: Tree<K>, path: seq<K>, value: Tree<K>): Option<Tree<K>>
    decreases |path|
  {
    if path == [] then Some(value)
    else if !t.Object? then None
    else
      var child := SetNested(if |path| > 1 then Get(t.fields, path[0]).GetOr(Object(map[])) else Null, path[1..],
                             value);
      if child.None? then None else Some(Object(t.fields[path[0] := child.value]))
  }

  function Fields<K>(path: seq<K>): Path<K> {
    if path == [] then [] else [Field(path[0])] + Fields(path[1..])
  }

  /** Where nothing is in the way, this is the write that makes way. */
  lemma {:induction false} SetNestedSets<K>(t: Tree<K>, path: seq<K>, value: Tree<K>)
    requires SetNested(t, path, value).Some?
    ensures SetNested(t, path, value).value == SetAt(t, Fields(path), value)
    decreases |path|
  {
    if path != [] {
      assert Fields(path)[1..] == Fields(path[1..]);
      var child := Child(t, Field(path[0]));
      if |path| > 1 {
        SetNestedSets(child.GetOr(Object(map[])), path[1..], value);
        if child.None? {
          SetBelowNothing(path[1..], value);
        }
      }
    }
  }

  lemma SetBelowNothing<K>(path: seq<K>, value: Tree<K>)
    requires path != []
    ensures SetAt(Null, Fields(path), value) == SetAt(Object(map[]), Fields(path), value)
  {
  }
}
