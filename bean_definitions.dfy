/** The bean definition under construction: an ordered map from property name to value, with the
    replace-in-place-or-append update of Spring's `MutablePropertyValues.addPropertyValue`. */
module BeanDefinitions {
  import opened Results

  /** A property value. `H` stands for whatever resolving a bean reference or a nested bean
      declaration produces. */
  datatype PropertyValue<H> =
    | Literal(text: string)          // a plain attribute value
    | Reference(beanName: string)    // a `RuntimeBeanReference` to a named bean
    | Bean(handle: H)                // a resolved reference or nested bean
    | ManagedList(items: seq<H>)     // a `ManagedList` of resolved beans

  datatype Property<H> = Property(name: string, value: PropertyValue<H>)

  /** The property names, in order. */
  function Names<H>(ps: seq<Property<H>>): (r: seq<string>)
    ensures |r| == |ps| && forall i :: 0 <= i < |ps| ==> r[i] == ps[i].name
  {
    if ps == [] then [] else [ps[0].name] + Names(ps[1..])
  }

  /** No name occurs twice. */
  predicate DistinctNames<H>(ps: seq<Property<H>>) {
    forall i, j :: 0 <= i < j < |ps| ==> ps[i].name != ps[j].name
  }

  /** The value stored under `name`, if any. */
  function Lookup<H>(ps: seq<Property<H>>, name: string): (r: Option<PropertyValue<H>>)
    ensures r.None? <==> name !in Names(ps)
  {
    if ps == [] then None
    else if ps[0].name == name then Some(ps[0].value)
    else Lookup(ps[1..], name)
  }

  /** `addPropertyValue`: the first property of the same name is replaced where it stands by the
      new one, otherwise the new property goes at the end. */
  function Put<H>(ps: seq<Property<H>>, name: string, value: PropertyValue<H>): (r: seq<Property<H>>)
    ensures name !in Names(ps) ==> r == ps + [Property(name, value)]
    ensures name in Names(ps) ==>
              && |r| == |ps|
              && forall i :: 0 <= i < |ps| ==> r[i].name == ps[i].name && (ps[i].name != name ==> r[i] == ps[i])
    ensures forall i :: (0 <= i < |ps| && ps[i].name == name && forall k :: 0 <= k < i ==> ps[k].name != name)
                        ==> r[i] == Property(name, value)
  {
    if ps == [] then [Property(name, value)]
    else if ps[0].name == name then [Property(name, value)] + ps[1..]
    else [ps[0]] + Put(ps[1..], name, value)
  }

  /** The properties after adding each of `adds` in turn. */
  function PutAll<H>(ps: seq<Property<H>>, adds: seq<Property<H>>): seq<Property<H>>
    decreases |adds|
  {
    if adds == [] then ps
    else
      var last := adds[|adds| - 1];
      Put(PutAll(ps, adds[..|adds| - 1]), last.name, last.value)
  }

  /** A lookup after `Put` finds the new value under its name and the old value under any other. */
  lemma {:induction false} PutLookup<H>(ps: seq<Property<H>>, name: string, value: PropertyValue<H>, other: string)
    ensures Lookup(Put(ps, name, value), other) == if other == name then Some(value) else Lookup(ps, other)
  {
    if ps != [] && ps[0].name != name {
      PutLookup(ps[1..], name, value, other);
      assert Put(ps, name, value)[1..] == Put(ps[1..], name, value);
    }
  }

  /** `Put` keeps the names distinct. */
  lemma PutDistinct<H>(ps: seq<Property<H>>, name: string, value: PropertyValue<H>)
    requires DistinctNames(ps)
    ensures DistinctNames(Put(ps, name, value))
  {
    if name !in Names(ps) {
      var r := Put(ps, name, value);
      forall i | 0 <= i < |ps| ensures r[i].name != name {
        assert Names(ps)[i] == ps[i].name;
      }
    }
  }

  /** Adding two batches one after the other is adding their concatenation. */
  lemma {:induction false} PutAllAppend<H>(ps: seq<Property<H>>, a: seq<Property<H>>, b: seq<Property<H>>)
    ensures PutAll(ps, a + b) == PutAll(PutAll(ps, a), b)
    decreases |b|
  {
    if b == [] {
      assert a + b == a;
    } else {
      assert (a + b)[..|a + b| - 1] == a + b[..|b| - 1];
      PutAllAppend(ps, a, b[..|b| - 1]);
    }
  }

  /** In a list without repeated names, a lookup after appending one property finds it only
      under its own name, and only when the name was not there already. */
  lemma {:induction false} LookupAppend<H>(ps: seq<Property<H>>, p: Property<H>, name: string)
    ensures Lookup(ps + [p], name) ==
            if name in Names(ps) then Lookup(ps, name) else if name == p.name then Some(p.value) else None
  {
    if ps != [] {
      assert (ps + [p])[1..] == ps[1..] + [p];
      if ps[0].name != name {
        LookupAppend(ps[1..], p, name);
        assert Names(ps)[1..] == Names(ps[1..]);
      }
    }
  }

  /** The names of a list with one more property. */
  lemma NamesAppend<H>(ps: seq<Property<H>>, p: Property<H>)
    ensures Names(ps + [p]) == Names(ps) + [p.name]
  {
  }

  /** In a list without repeated names, the last name does not occur before it. */
  lemma DistinctLast<H>(adds: seq<Property<H>>)
    requires DistinctNames(adds) && adds != []
    ensures DistinctNames(adds[..|adds| - 1])
    ensures adds[|adds| - 1].name !in Names(adds[..|adds| - 1])
  {
    var init := adds[..|adds| - 1];
    forall k | 0 <= k < |init| ensures Names(init)[k] != adds[|adds| - 1].name {
      assert adds[k] == init[k];
    }
  }

  /** After a batch of distinctly named additions, each added name holds its added value and
      every other name keeps what it had. */
  lemma {:induction false} PutAllLookup<H>(ps: seq<Property<H>>, adds: seq<Property<H>>, name: string)
    requires DistinctNames(adds)
    ensures Lookup(PutAll(ps, adds), name) ==
            if name in Names(adds) then Lookup(adds, name) else Lookup(ps, name)
    decreases |adds|
  {
    if adds != [] {
      var init, last := adds[..|adds| - 1], adds[|adds| - 1];
      assert adds == init + [last];
      DistinctLast(adds);
      PutAllLookup(ps, init, name);
      PutLookup(PutAll(ps, init), last.name, last.value, name);
      LookupAppend(init, last, name);
      NamesAppend(init, last);
    }
  }

  /** `Put` of a name not yet present appends it. */
  lemma PutAppendsNew<H>(ps: seq<Property<H>>, p: Property<H>)
    requires p.name !in Names(ps)
    ensures Put(ps, p.name, p.value) == ps + [p]
  {
  }

  /** Distinctly named additions made to an empty list are that list, in that order. */
  lemma {:induction false} PutAllFromEmpty<H>(adds: seq<Property<H>>)
    requires DistinctNames(adds)
    ensures PutAll([], adds) == adds
    decreases |adds|
  {
    if adds != [] {
      var init, last := adds[..|adds| - 1], adds[|adds| - 1];
      assert adds == init + [last];
      assert PutAll([], adds) == Put(PutAll([], init), last.name, last.value);
      DistinctLast(adds);
      PutAllFromEmpty(init);
      PutAppendsNew(init, last);
    }
  }

  /** The names of a concatenation. */
  lemma NamesConcat<H>(a: seq<Property<H>>, b: seq<Property<H>>)
    ensures Names(a + b) == Names(a) + Names(b)
  {
    assert forall i :: 0 <= i < |a| + |b| ==> (a + b)[i].name == (Names(a) + Names(b))[i];
  }

  /** Two lists without repeated names and without a name in common concatenate to one. */
  lemma DistinctConcat<H>(a: seq<Property<H>>, b: seq<Property<H>>)
    requires DistinctNames(a) && DistinctNames(b)
    requires forall n :: n in Names(a) ==> n !in Names(b)
    ensures DistinctNames(a + b)
  {
    forall i, j | 0 <= i < |a| && 0 <= j < |b| ensures a[i].name != b[j].name {
      assert Names(a)[i] == a[i].name;
      assert a[i].name in Names(a);
      assert Names(b)[j] == b[j].name;
      assert b[j].name in Names(b);
    }
    forall i, j | 0 <= i < j < |a + b| ensures (a + b)[i].name != (a + b)[j].name {
      if j < |a| {
        assert (a + b)[i] == a[i] && (a + b)[j] == a[j];
      } else if |a| <= i {
        assert (a + b)[i] == b[i - |a|] && (a + b)[j] == b[j - |a|];
      } else {
        assert (a + b)[i] == a[i] && (a + b)[j] == b[j - |a|];
      }
    }
  }

  /** A lookup in a concatenation finds the first list's entry when it has the name. */
  lemma {:induction false} LookupConcat<H>(a: seq<Property<H>>, b: seq<Property<H>>, name: string)
    ensures Lookup(a + b, name) == if name in Names(a) then Lookup(a, name) else Lookup(b, name)
  {
    if a != [] {
      assert (a + b)[1..] == a[1..] + b;
      if a[0].name != name {
        LookupConcat(a[1..], b, name);
        assert Names(a)[1..] == Names(a[1..]);
      }
    } else {
      assert a + b == b;
    }
  }

  /** A lookup in three concatenated lists finds the first list that holds the name. */
  lemma LookupConcat3<H>(a: seq<Property<H>>, b: seq<Property<H>>, c: seq<Property<H>>, name: string)
    ensures Lookup(a + b + c, name) ==
            if name in Names(a) then Lookup(a, name)
            else if name in Names(b) then Lookup(b, name)
            else Lookup(c, name)
  {
    NamesConcat(a, b);
    LookupConcat(a, b, name);
    LookupConcat(a + b, c, name);
  }

  /** Properties built from nothing by a sequence of additions never repeat a name. */
  lemma {:induction false} PutAllDistinct<H>(adds: seq<Property<H>>)
    ensures DistinctNames(PutAll([], adds))
    decreases |adds|
  {
    if adds != [] {
      var last := adds[|adds| - 1];
      PutAllDistinct(adds[..|adds| - 1]);
      PutDistinct(PutAll([], adds[..|adds| - 1]), last.name, last.value);
    }
  }

  /** The `BeanDefinitionBuilder` the parser writes into: only its property values are modelled.
      `history` records every `addPropertyValue` call made on it, oldest first. */
  class BeanDefinitionBuilder<H> {
    var properties: seq<Property<H>>
    ghost var history: seq<Property<H>>

    ghost predicate Valid()
      reads this
    {
      && properties == PutAll([], history)
      && DistinctNames(properties)
    }

    constructor ()
      ensures Valid() && properties == [] && history == []
    {
      properties := [];
      history := [];
    }

    /** `addPropertyValue`. */
    method AddPropertyValue(name: string, value: PropertyValue<H>)
      requires Valid()
      modifies this
      ensures Valid()
      ensures properties == Put(old(properties), name, value)
      ensures history == old(history) + [Property(name, value)]
    {
      PutDistinct(properties, name, value);
      properties := Put(properties, name, value);
      history := history + [Property(name, value)];
      assert history[..|history| - 1] == old(history);
    }
  }
}
