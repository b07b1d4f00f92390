/**
 * The list of name-value tuples held by a URLSearchParams object, and what
 * `delete(name)` does to it (section 6.2 of the WHATWG URL Standard): every
 * tuple whose name is `name` is removed, the others stay in their order.
 */
module SearchParams {

  /** One name-value tuple of the list. */
  datatype Pair = Pair(name: string, value: string)

  /** The names of a sequence, as a set. */
  function NameSet(names: seq<string>): set<string>
  {
    set n | n in names
  }

  /**
   * Reference definition of the filter: the pairs of `ps` whose names are
   * not in `drop`, in the order they appear in `ps`.
   */
  function Keep(ps: seq<Pair>, drop: set<string>): (r: seq<Pair>)
    ensures |r| <= |ps|
    ensures forall p :: p in r <==> p in ps && p.name !in drop
  {
    if ps == [] then []
    else
      assert forall p :: p in ps <==> p == ps[0] || p in ps[1..];
      (if ps[0].name in drop then [] else [ps[0]]) + Keep(ps[1..], drop)
  }

  /** URLSearchParams.delete(name), called without a value: removes every tuple named `name`. */
  function Delete(ps: seq<Pair>, name: string): (r: seq<Pair>)
    ensures forall p :: p in r <==> p in ps && p.name != name
  {
    Keep(ps, {name})
  }

  /** `names.forEach(n => params.delete(n))`: the deletions applied one after another, first name first. */
  function DeleteEach(ps: seq<Pair>, names: seq<string>): (r: seq<Pair>)
    ensures forall p :: p in r <==> p in ps && p.name !in names
  {
    if names == [] then ps
    else Delete(DeleteEach(ps, names[..|names| - 1]), names[|names| - 1])
  }

  /** The number of tuples named `name`. */
  function Occurrences(ps: seq<Pair>, name: string): nat
  {
    if ps == [] then 0
    else (if ps[0].name == name then 1 else 0) + Occurrences(ps[1..], name)
  }

  /** `delete` removes every occurrence of the name, not only the first one. */
  lemma {:induction false} DeleteRemovesEveryOccurrence(ps: seq<Pair>, name: string)
    ensures |Delete(ps, name)| == |ps| - Occurrences(ps, name)
    ensures Occurrences(Delete(ps, name), name) == 0
  {
    if ps != [] {
      DeleteRemovesEveryOccurrence(ps[1..], name);
      var rest := Delete(ps[1..], name);
      if ps[0].name == name {
        assert Delete(ps, name) == rest;
      } else {
        assert Delete(ps, name) == [ps[0]] + rest;
        assert ([ps[0]] + rest)[1..] == rest;
      }
    }
  }

  /** Dropping nothing keeps the whole list. */
  lemma {:induction false} KeepNothing(ps: seq<Pair>)
    ensures Keep(ps, {}) == ps
  {
    if ps != [] {
      KeepNothing(ps[1..]);
      assert ps == [ps[0]] + ps[1..];
    }
  }

  /** Filtering twice is filtering once by both sets. */
  lemma {:induction false} KeepKeep(ps: seq<Pair>, a: set<string>, b: set<string>)
    ensures Keep(Keep(ps, a), b) == Keep(ps, a + b)
  {
    if ps != [] {
      KeepKeep(ps[1..], a, b);
      var head := if ps[0].name in a then [] else [ps[0]];
      KeepAppend(head, Keep(ps[1..], a), b);
      if head != [] {
        assert head[1..] == [];
        assert Keep(head, b) == (if ps[0].name in b then [] else [ps[0]]) + Keep([], b);
      }
    }
  }

  /** The filter distributes over concatenation: what came first stays first. */
  lemma {:induction false} KeepAppend(xs: seq<Pair>, ys: seq<Pair>, drop: set<string>)
    ensures Keep(xs + ys, drop) == Keep(xs, drop) + Keep(ys, drop)
  {
    if xs == [] {
      assert xs + ys == ys;
    } else {
      var head := if xs[0].name in drop then [] else [xs[0]];
      calc {
        Keep(xs + ys, drop);
        { assert (xs + ys)[0] == xs[0] && (xs + ys)[1..] == xs[1..] + ys; }
        head + Keep(xs[1..] + ys, drop);
        { KeepAppend(xs[1..], ys, drop); }
        head + (Keep(xs[1..], drop) + Keep(ys, drop));
        (head + Keep(xs[1..], drop)) + Keep(ys, drop);
      }
    }
  }

  /** The filter is idempotent. */
  lemma KeepIdempotent(ps: seq<Pair>, drop: set<string>)
    ensures Keep(Keep(ps, drop), drop) == Keep(ps, drop)
  {
    KeepKeep(ps, drop, drop);
    assert drop + drop == drop;
  }

  /** The filter leaves a list unchanged exactly when no name of the list is dropped. */
  lemma {:induction false} KeepUnchanged(ps: seq<Pair>, drop: set<string>)
    ensures Keep(ps, drop) == ps <==> forall p :: p in ps ==> p.name !in drop
  {
    if ps != [] && forall p :: p in ps ==> p.name !in drop {
      assert forall p :: p in ps[1..] ==> p in ps;
      KeepUnchanged(ps[1..], drop);
      assert ps == [ps[0]] + ps[1..];
    }
  }

  /**
   * Applying the deletions one after another, in any order, equals the
   * reference filter by the set of names.
   */
  lemma {:induction false} DeleteEachIsKeep(ps: seq<Pair>, names: seq<string>)
    ensures DeleteEach(ps, names) == Keep(ps, NameSet(names))
  {
    if names == [] {
      KeepNothing(ps);
      assert NameSet(names) == {};
    } else {
      var init, last := names[..|names| - 1], names[|names| - 1];
      DeleteEachIsKeep(ps, init);
      KeepKeep(ps, NameSet(init), {last});
      assert names == init + [last];
      assert NameSet(names) == NameSet(init) + {last};
    }
  }

  /** The order in which the names are deleted, and repeated names, do not change the result. */
  lemma DeleteOrderIrrelevant(ps: seq<Pair>, a: seq<string>, b: seq<string>)
    requires NameSet(a) == NameSet(b)
    ensures DeleteEach(ps, a) == DeleteEach(ps, b)
  {
    DeleteEachIsKeep(ps, a);
    DeleteEachIsKeep(ps, b);
  }

  /** Deleting the same names a second time changes nothing. */
  lemma DeleteEachIdempotent(ps: seq<Pair>, names: seq<string>)
    ensures DeleteEach(DeleteEach(ps, names), names) == DeleteEach(ps, names)
  {
    DeleteEachIsKeep(ps, names);
    DeleteEachIsKeep(Keep(ps, NameSet(names)), names);
    KeepIdempotent(ps, NameSet(names));
  }

  /**
   * A surviving tuple at index `i` of `ps` lands, with its value unchanged,
   * at the index given by the number of survivors before it.
   */
  lemma KeptAt(ps: seq<Pair>, drop: set<string>, i: nat)
    requires i < |ps| && ps[i].name !in drop
    ensures |Keep(ps[..i], drop)| < |Keep(ps, drop)|
    ensures Keep(ps, drop)[|Keep(ps[..i], drop)|] == ps[i]
  {
    assert ps == ps[..i] + ps[i..];
    KeepAppend(ps[..i], ps[i..], drop);
    assert ps[i..][0] == ps[i];
    assert Keep(ps[i..], drop) == [ps[i]] + Keep(ps[i..][1..], drop);
  }

  /** Survivors keep their relative order: a later survivor lands at a later index. */
  lemma KeptInOrder(ps: seq<Pair>, drop: set<string>, i: nat, j: nat)
    requires i < j <= |ps| && ps[i].name !in drop
    ensures |Keep(ps[..i], drop)| < |Keep(ps[..j], drop)|
  {
    assert ps[..j] == ps[..i] + ps[i..j];
    KeepAppend(ps[..i], ps[i..j], drop);
    assert ps[i] in ps[i..j];
  }
}
