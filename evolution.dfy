/** The evolution operator: children are bred from two distinct members of
    the population by one-point crossover at the middle of the first
    parent, and occasionally mutated by replacing one point with a random
    one. The random draws of each pass of the breeding loop are supplied as
    an `Attempt`. */
module Evolution {
  import opened Results
  import opened Geometry
  import opened Environment
  import opened Ranker

  /** The draws of one pass of `evolve`'s loop: the two parent indices, the
      mutation coin (`np.random.random()`), the mutation position and the
      draw for the replacement point. Draws a pass does not reach are
      ignored. */
  datatype Attempt = Attempt(parentA: nat, parentB: nat, coin: real, position: nat, point: Draw)

  /** The first half of `a` (rounded down) followed by the rest of `b` from
      that position on; Python's slice of `b` is empty when `b` is shorter. */
  function Crossover(a: seq<Point>, b: seq<Point>): (child: seq<Point>)
    ensures |child| == if |b| >= |a| / 2 then |b| else |a| / 2
    ensures forall i :: 0 <= i < |a| / 2 ==> child[i] == a[i]
    ensures forall i :: |a| / 2 <= i < |child| ==> child[i] == b[i]
  {
    var cut := |a| / 2;
    a[..cut] + if cut <= |b| then b[cut..] else []
  }

  /** `child` is `base`, or `base` with one point replaced by a point
      `Grid.random(size, (0, 0))` can return. */
  predicate Mutant(grid: Grid, size: Point, base: seq<Point>, child: seq<Point>) {
    |child| == |base| &&
    (child == base || exists k :: 0 <= k < |base| && child == base[k := child[k]] && Drawable(grid, size, Origin, child[k]))
  }

  /** `child` is a possibly mutated crossover of two members of the
      population at distinct indices. */
  predicate Bred(grid: Grid, size: Point, population: seq<Path>, child: seq<Point>) {
    exists i, j :: 0 <= i < |population| && 0 <= j < |population| && i != j &&
      Mutant(grid, size, Crossover(population[i].points, population[j].points), child)
  }

  /** One pass of `evolve`'s loop: no child when the two indices are equal,
      otherwise the crossover, mutated when the coin is at most `chance`. */
  function Offspring(grid: Grid, size: Point, chance: real, population: seq<Path>, at: Attempt)
    : (r: Result<Option<seq<Point>>>)
    ensures r.Err? ==> r.error == EmptyRange
    ensures r.Ok? && r.value.Some? ==> Bred(grid, size, population, r.value.value)
    ensures |population| == 1 ==> r == Ok(None)
    ensures r == Ok(None) <==> |population| > 0 && at.parentA % |population| == at.parentB % |population|
    ensures r.Err? <==>
      (|population| == 0 ||
       (at.parentA % |population| != at.parentB % |population| && at.coin <= chance &&
        (|Crossover(population[at.parentA % |population|].points, population[at.parentB % |population|].points)| == 0 ||
         !CanDraw(grid, size, Origin))))
  {
    var a := RandInt(0, |population|, at.parentA);
    var b := RandInt(0, |population|, at.parentB);
    if a.Err? then Err(a.error)
    else if a.value == b.value then Ok(None)
    else
      var child := Crossover(population[a.value].points, population[b.value].points);
      if at.coin > chance then Ok(Some(child))
      else
        var position := RandInt(0, |child|, at.position);
        var point := Random(grid, size, Origin, at.point);
        if position.Err? then Err(position.error)
        else if point.Err? then Err(point.error)
        else Ok(Some(child[position.value := point.value]))
  }

  /** Specification of `evolve`: breed behind the children `bred` so far
      until there are `count` children. */
  function Children(grid: Grid, size: Point, chance: real, population: seq<Path>,
                    bred: seq<seq<Point>>, count: nat, attempts: seq<Attempt>)
    : (r: Result<seq<seq<Point>>>)
    ensures r.Ok? ==> bred <= r.value
    ensures r.Ok? && |bred| <= count ==> |r.value| == count
    decreases |attempts|
  {
    if |bred| >= count then Ok(bred)
    else if attempts == [] then Err(Exhausted)
    else match Offspring(grid, size, chance, population, attempts[0])
      case Err(e) => Err(e)
      case Ok(None) => Children(grid, size, chance, population, bred, count, attempts[1..])
      case Ok(Some(child)) => Children(grid, size, chance, population, bred + [child], count, attempts[1..])
  }

  /** Every child comes from two distinct members, with at most one point
      replaced. */
  lemma {:induction false} ChildrenBred(grid: Grid, size: Point, chance: real, population: seq<Path>,
                                        bred: seq<seq<Point>>, count: nat, attempts: seq<Attempt>)
    requires forall c :: c in bred ==> Bred(grid, size, population, c)
    requires Children(grid, size, chance, population, bred, count, attempts).Ok?
    ensures forall c :: c in Children(grid, size, chance, population, bred, count, attempts).value ==>
      Bred(grid, size, population, c)
    decreases |attempts|
  {
    if |bred| < count && attempts != [] {
      match Offspring(grid, size, chance, population, attempts[0])
      case Ok(None) =>
        ChildrenBred(grid, size, chance, population, bred, count, attempts[1..]);
      case Ok(Some(child)) =>
        AppendAll(bred, child, c => Bred(grid, size, population, c));
        ChildrenBred(grid, size, chance, population, bred + [child], count, attempts[1..]);
    }
  }

  lemma AppendAll(bred: seq<seq<Point>>, child: seq<Point>, good: seq<Point> -> bool)
    requires forall c :: c in bred ==> good(c)
    requires good(child)
    ensures forall c :: c in bred + [child] ==> good(c)
  {
  }

  /** With a single member no two indices differ: the source loops forever,
      the model runs out of attempts. */
  lemma {:induction false} Lonely(grid: Grid, size: Point, chance: real, population: seq<Path>,
                                  bred: seq<seq<Point>>, count: nat, attempts: seq<Attempt>)
    requires |population| == 1 && |bred| < count
    ensures Children(grid, size, chance, population, bred, count, attempts) == Err(Exhausted)
    decreases |attempts|
  {
    if attempts != [] {
      Lonely(grid, size, chance, population, bred, count, attempts[1..]);
    }
  }

  /** With two or more members, none of them an empty route, and a field
      that leaves room for a mutation point, breeding completes as soon as
      enough attempts draw distinct indices: each such attempt adds a
      child, mutated or not. */
  lemma {:induction false} ChildrenSucceed(grid: Grid, size: Point, chance: real, population: seq<Path>,
                                           bred: seq<seq<Point>>, count: nat, attempts: seq<Attempt>)
    requires |population| >= 2
    requires forall i :: 0 <= i < |population| ==> |population[i].points| > 0
    requires CanDraw(grid, size, Origin)
    requires forall k :: 0 <= k < |attempts| ==> attempts[k].parentA % |population| != attempts[k].parentB % |population|
    requires |bred| + |attempts| >= count
    ensures Children(grid, size, chance, population, bred, count, attempts).Ok?
    decreases |attempts|
  {
    if |bred| < count {
      match Offspring(grid, size, chance, population, attempts[0])
      case Ok(Some(child)) =>
        ChildrenSucceed(grid, size, chance, population, bred + [child], count, attempts[1..]);
    }
  }

  /** `child` is exactly the crossover of two members at distinct indices. */
  predicate Crossed(population: seq<Path>, child: seq<Point>) {
    exists i, j :: 0 <= i < |population| && 0 <= j < |population| && i != j &&
      child == Crossover(population[i].points, population[j].points)
  }

  lemma OffspringCrossed(grid: Grid, size: Point, chance: real, population: seq<Path>, at: Attempt)
    requires at.coin > chance
    requires Offspring(grid, size, chance, population, at).Ok?
    requires Offspring(grid, size, chance, population, at).value.Some?
    ensures Crossed(population, Offspring(grid, size, chance, population, at).value.value)
  {
    var i := at.parentA % |population|;
    var j := at.parentB % |population|;
    assert Offspring(grid, size, chance, population, at).value.value ==
           Crossover(population[i].points, population[j].points);
  }

  /** When no coin comes up at most `chance`, every child is exactly the
      crossover of two distinct members. */
  lemma {:induction false} NoMutation(grid: Grid, size: Point, chance: real, population: seq<Path>,
                                      bred: seq<seq<Point>>, count: nat, attempts: seq<Attempt>)
    requires forall k :: 0 <= k < |attempts| ==> attempts[k].coin > chance
    requires forall c :: c in bred ==> Crossed(population, c)
    requires Children(grid, size, chance, population, bred, count, attempts).Ok?
    ensures forall c :: c in Children(grid, size, chance, population, bred, count, attempts).value ==>
      Crossed(population, c)
    decreases |attempts|
  {
    if |bred| < count && attempts != [] {
      match Offspring(grid, size, chance, population, attempts[0])
      case Ok(None) =>
        NoMutation(grid, size, chance, population, bred, count, attempts[1..]);
      case Ok(Some(child)) =>
        OffspringCrossed(grid, size, chance, population, attempts[0]);
        AppendAll(bred, child, c => Crossed(population, c));
        NoMutation(grid, size, chance, population, bred + [child], count, attempts[1..]);
    }
  }

  /** `evolve`: loop until `count` children are bred, drawing the parents
      and the mutation from the next attempt on each pass. */
  method Evolve(grid: Grid, size: Point, chance: real, population: seq<Path>,
                count: nat, attempts: seq<Attempt>) returns (r: Result<seq<seq<Point>>>)
    ensures r == Children(grid, size, chance, population, [], count, attempts)
  {
    var children: seq<seq<Point>> := [];
    var next := 0;
    assert attempts[0..] == attempts;
    while |children| < count
      invariant next <= |attempts|
      invariant Children(grid, size, chance, population, children, count, attempts[next..]) ==
                Children(grid, size, chance, population, [], count, attempts)
      decreases |attempts| - next
    {
      if next == |attempts| {
        return Err(Exhausted);
      }
      var offspring := Offspring(grid, size, chance, population, attempts[next]);
      assert attempts[next..][1..] == attempts[next + 1..];
      next := next + 1;
      if offspring.Err? {
        return Err(offspring.error);
      }
      if offspring.value.Some? {
        children := children + [offspring.value.value];
      }
    }
    return Ok(children);
  }
}
