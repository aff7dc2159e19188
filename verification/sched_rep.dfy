/** The scheduler's lists in memory: every task has one pair of links, which threads it onto the one list
    it is on. Ready lists have a head, a tail and a bit in the bitmap; the blocked and the delayed list
    have a head. */
module SchedRep {
  import opened Lists
  import opened SchedModel
  import opened SchedProof

  type Link = Option<Task>

  ghost function First(l: seq<Task>): Link { if l == [] then None else Some(l[0]) }

  ghost function Last(l: seq<Task>): Link { if l == [] then None else Some(l[|l| - 1]) }

  ghost function After(l: seq<Task>, i: nat): Link { if i + 1 < |l| then Some(l[i + 1]) else None }

  ghost function Before(l: seq<Task>, i: nat): Link
    requires i <= |l|
  {
    if i > 0 then Some(l[i - 1]) else None
  }

  /** What is at position k, if anything. */
  ghost function At(l: seq<Task>, k: nat): Link { if k < |l| then Some(l[k]) else None }

  /** The tasks of l, linked both ways. */
  ghost predicate Linked(next: seq<Link>, prev: seq<Link>, l: seq<Task>) {
    |next| == |prev| && forall i :: 0 <= i < |l| ==> l[i] < |next| && next[l[i]] == After(l, i) && prev[l[i]] == Before(l, i)
  }

  lemma KeepLinked(next: seq<Link>, prev: seq<Link>, next': seq<Link>, prev': seq<Link>, l: seq<Task>)
    requires Linked(next, prev, l) && |next'| == |next| && |prev'| == |prev|
    requires forall x :: x in l && x < |next| ==> next'[x] == next[x] && prev'[x] == prev[x]
    ensures Linked(next', prev', l)
  {
    forall i | 0 <= i < |l| ensures next'[l[i]] == next[l[i]] && prev'[l[i]] == prev[l[i]] { assert l[i] in l; }
  }

  lemma Neighbours(next: seq<Link>, prev: seq<Link>, l: seq<Task>, i: nat)
    requires Linked(next, prev, l) && Distinct(l) && i < |l|
    ensures l[i] < |next| && next[l[i]] == After(l, i) && prev[l[i]] == Before(l, i)
    ensures After(l, i).Some? ==> After(l, i).value < |next| && After(l, i).value in l && After(l, i).value != l[i]
    ensures Before(l, i).Some? ==> Before(l, i).value < |next| && Before(l, i).value in l && Before(l, i).value != l[i]
    ensures After(l, i).Some? && Before(l, i).Some? ==> After(l, i) != Before(l, i)
  {
  }

  // --- Linking a task in --------------------------------------------------------------------------------

  /** One store to a neighbour, one to the task. */
  ghost function Rewired(link: seq<Link>, from: Link, to: Link, t: Task, own: Link): (r: seq<Link>)
    requires t < |link| && (from.Some? ==> from.value < |link|)
    ensures |r| == |link| && r[t] == own
    ensures forall k :: 0 <= k < |link| && k != t ==> r[k] == if from == Some(k) then to else link[k]
  {
    (if from.Some? then link[from.value := to] else link)[t := own]
  }

  lemma AroundSplice(l: seq<Task>, k: nat, t: Task, j: nat)
    requires k <= |l| && j < |l|
    ensures var i := if j < k then j else j + 1; var r := Splice(l, k, t);
      && r[i] == l[j]
      && After(r, i) == (if j + 1 == k then Some(t) else After(l, j))
      && Before(r, i) == if j == k then Some(t) else Before(l, j)
    ensures After(Splice(l, k, t), k) == At(l, k) && Before(Splice(l, k, t), k) == Before(l, k)
  {
  }

  lemma SplicedAt(next: seq<Link>, prev: seq<Link>, l: seq<Task>, k: nat, t: Task, j: nat)
    requires Linked(next, prev, l) && Distinct(l) && k <= |l| && t < |next| && t !in l && j < |l|
    requires (Before(l, k).Some? ==> Before(l, k).value < |next|) && (At(l, k).Some? ==> At(l, k).value < |prev|)
    ensures Rewired(next, Before(l, k), Some(t), t, At(l, k))[l[j]] == if j + 1 == k then Some(t) else After(l, j)
    ensures Rewired(prev, At(l, k), Some(t), t, Before(l, k))[l[j]] == if j == k then Some(t) else Before(l, j)
  {
    assert l[j] != t && l[j] < |next|;
  }

  /** A task put between two neighbours, at either end, or onto an empty list. */
  lemma SpliceLinked(next: seq<Link>, prev: seq<Link>, l: seq<Task>, k: nat, t: Task)
    requires Linked(next, prev, l) && Distinct(l) && k <= |l| && t < |next| && t !in l
    ensures (Before(l, k).Some? ==> Before(l, k).value < |next|) && (At(l, k).Some? ==> At(l, k).value < |prev|)
    ensures Linked(Rewired(next, Before(l, k), Some(t), t, At(l, k)), Rewired(prev, At(l, k), Some(t), t, Before(l, k)), Splice(l, k, t))
  {
    var r := Splice(l, k, t);
    var next', prev' := Rewired(next, Before(l, k), Some(t), t, At(l, k)), Rewired(prev, At(l, k), Some(t), t, Before(l, k));
    hide Rewired, After, Before, Distinct;
    forall i | 0 <= i < |r| ensures r[i] < |next'| && next'[r[i]] == After(r, i) && prev'[r[i]] == Before(r, i) {
      if i == k {
        if k < |l| { AroundSplice(l, k, t, k); } else if k > 0 { AroundSplice(l, k, t, k - 1); } else { EmptySplice(l, t); }
      } else {
        var j := if i < k then i else i - 1;
        AroundSplice(l, k, t, j);
        SplicedAt(next, prev, l, k, t, j);
      }
    }
  }

  lemma EmptySplice(l: seq<Task>, t: Task)
    requires l == []
    ensures After(Splice(l, 0, t), 0) == At(l, 0) && Before(Splice(l, 0, t), 0) == Before(l, 0)
  {
  }

  // --- Linking a task out -------------------------------------------------------------------------------

  lemma AroundCut(l: seq<Task>, i: nat, j: nat)
    requires i < |l| && j < |l| - 1
    ensures var k := if j < i then j else j + 1; var r := Cut(l, i);
      && r[j] == l[k]
      && After(r, j) == (if k + 1 == i then After(l, i) else After(l, k))
      && Before(r, j) == if k == i + 1 then Before(l, i) else Before(l, k)
  {
  }

  lemma CutAt(next: seq<Link>, prev: seq<Link>, l: seq<Task>, i: nat, k: nat)
    requires Linked(next, prev, l) && Distinct(l) && i < |l| && k < |l| && k != i
    requires (Before(l, i).Some? ==> Before(l, i).value < |next|) && (After(l, i).Some? ==> After(l, i).value < |prev|) && l[i] < |next|
    ensures l[k] < |next|
    ensures Rewired(next, Before(l, i), After(l, i), l[i], None)[l[k]] == if k + 1 == i then After(l, i) else After(l, k)
    ensures Rewired(prev, After(l, i), Before(l, i), l[i], None)[l[k]] == if k == i + 1 then Before(l, i) else Before(l, k)
  {
    assert l[k] != l[i];
  }

  lemma CutLinked(next: seq<Link>, prev: seq<Link>, l: seq<Task>, i: nat)
    requires Linked(next, prev, l) && Distinct(l) && i < |l|
    ensures l[i] < |next| && (Before(l, i).Some? ==> Before(l, i).value < |next|) && (After(l, i).Some? ==> After(l, i).value < |prev|)
    ensures Linked(Rewired(next, Before(l, i), After(l, i), l[i], None), Rewired(prev, After(l, i), Before(l, i), l[i], None), Cut(l, i))
  {
    var r := Cut(l, i);
    var next', prev' := Rewired(next, Before(l, i), After(l, i), l[i], None), Rewired(prev, After(l, i), Before(l, i), l[i], None);
    hide Rewired, After, Before, Distinct;
    forall j | 0 <= j < |r| ensures r[j] < |next'| && next'[r[j]] == After(r, j) && prev'[r[j]] == Before(r, j) {
      AroundCut(l, i, j);
      CutAt(next, prev, l, i, if j < i then j else j + 1);
    }
  }

  // --- All lists ------------------------------------------------------------------------------------------

  /** The links of every task, the ends and the bit of every ready list, and the two other heads. */
  datatype Mem = Mem(next: seq<Link>, prev: seq<Link>, heads: seq<Link>, tails: seq<Link>, bitmap: seq<bool>, blocked: Link, delayed: Link)

  ghost function ListAt(s: State, h: Home): seq<Task> {
    match h
    case OnReady(p) => if p < |s.ready| then s.ready[p] else []
    case OnBlocked => s.blocked
    case OnDelayed => s.delayed
    case Nowhere => []
  }

  /** Where list h begins and ends; bit p is set exactly when list p is not empty. */
  ghost predicate Ends(m: Mem, l: seq<Task>, h: Home) {
    match h
    case OnReady(p) => p < |m.heads| == |m.tails| == |m.bitmap| ==> m.heads[p] == First(l) && m.tails[p] == Last(l) && m.bitmap[p] == (l != [])
    case OnBlocked => m.blocked == First(l)
    case OnDelayed => m.delayed == First(l)
    case Nowhere => true
  }

  ghost predicate HomeRep(m: Mem, s: State, h: Home) { Linked(m.next, m.prev, ListAt(s, h)) && Ends(m, ListAt(s, h), h) }

  ghost predicate Known(s: State, h: Home) { h.OnReady? ==> h.p < |s.ready| }

  /** The memory holds these lists. */
  ghost predicate Rep(m: Mem, s: State) {
    && |m.heads| == |m.tails| == |m.bitmap| == |s.ready| && |m.next| == |m.prev| == |s.prio|
    && forall h :: Known(s, h) ==> HomeRep(m, s, h)
  }

  /** A list that is not the one that changes has no task in common with it. */
  lemma Apart(s: State, but: Option<Task>, g: Home, h: Home)
    requires LawBut(s, but) && g != h
    ensures forall x :: x in ListAt(s, g) ==> x !in ListAt(s, h) && Some(x) != but && x < |s.prio|
  {
    forall x | x in ListAt(s, g) ensures x !in ListAt(s, h) && Some(x) != but && x < |s.prio| {
      Listed(s, but, g, x);
      Listed(s, but, h, x);
    }
  }

  lemma Listed(s: State, but: Option<Task>, h: Home, x: Task)
    requires LawBut(s, but)
    ensures x in ListAt(s, h) ==> x < |s.prio| && Some(x) != but && HomeOf(s.prio, s.status, x) == h
    ensures x < |s.prio| && Some(x) != but && HomeOf(s.prio, s.status, x) == h && h != Nowhere ==> x in ListAt(s, h)
    ensures Distinct(ListAt(s, h))
  {
    if h.OnReady? && h.p < |s.ready| { assert Holds(s.ready[h.p], s.prio, s.status, OnReady(h.p), but); }
  }

  /** One list changes, in memory and in the state; no link of a task on another list does. */
  lemma OneList(m: Mem, m': Mem, s: State, s': State, but: Option<Task>, h: Home, t: Task)
    requires LawBut(s, but) && Rep(m, s) && t < |s.prio| && (but == Some(t) || t in ListAt(s, h))
    requires |s'.ready| == |s.ready| && |s'.prio| == |s.prio| && |m'.next| == |m'.prev| == |m.next|
    requires |m'.heads| == |m'.tails| == |m'.bitmap| == |s.ready|
    requires forall g :: g != h && Known(s, g) ==> ListAt(s', g) == ListAt(s, g)
    requires forall g :: g != h && Known(s, g) && Ends(m, ListAt(s, g), g) ==> Ends(m', ListAt(s, g), g)
    requires forall k :: 0 <= k < |m.next| && k != t && k !in ListAt(s, h) ==> m'.next[k] == m.next[k] && m'.prev[k] == m.prev[k]
    requires Known(s, h) && HomeRep(m', s', h)
    ensures Rep(m', s')
  {
    hide LawBut, Ends, Linked;
    forall g | Known(s', g) && g != h ensures HomeRep(m', s', g) {
      assert HomeRep(m, s, g);
      Apart(s, but, g, h);
      Listed(s, but, g, t);
      KeepLinked(m.next, m.prev, m'.next, m'.prev, ListAt(s, g));
    }
  }

  /** Nothing but list h has new ends. */
  ghost predicate SameEnds(m: Mem, m': Mem, h: Home) {
    && |m'.heads| == |m.heads| && |m'.tails| == |m.tails| && |m'.bitmap| == |m.bitmap|
    && (h != OnBlocked ==> m'.blocked == m.blocked) && (h != OnDelayed ==> m'.delayed == m.delayed)
    && (forall p :: 0 <= p < |m.heads| && h != OnReady(p) ==> m'.heads[p] == m.heads[p])
    && (forall p :: 0 <= p < |m.tails| && h != OnReady(p) ==> m'.tails[p] == m.tails[p])
    && (forall p :: 0 <= p < |m.bitmap| && h != OnReady(p) ==> m'.bitmap[p] == m.bitmap[p])
  }

  /** Nothing but list h changed. */
  ghost predicate SameLists(s: State, s': State, h: Home) {
    && |s'.ready| == |s.ready| && |s'.prio| == |s.prio| && forall g :: g != h && Known(s, g) ==> ListAt(s', g) == ListAt(s, g)
  }

  lemma EndsKept(m: Mem, m': Mem, s: State, h: Home)
    requires SameEnds(m, m', h)
    ensures forall g :: g != h && Known(s, g) && Ends(m, ListAt(s, g), g) ==> Ends(m', ListAt(s, g), g)
  {
  }

  /** Links of tasks away from a change. */
  lemma Elsewhere(s: State, but: Option<Task>, h: Home, link: seq<Link>, x: Link, to: Link, t: Task, own: Link)
    requires LawBut(s, but) && t < |link| && |link| == |s.prio| && (x.Some? ==> x.value in ListAt(s, h))
    ensures x.Some? ==> x.value < |link|
    ensures forall i :: 0 <= i < |link| && i != t && i !in ListAt(s, h) ==> Rewired(link, x, to, t, own)[i] == link[i]
  {
    if x.Some? { Listed(s, but, h, x.value); }
  }

  /** Task t goes onto list h at position k. */
  lemma SpliceRep(m: Mem, m': Mem, s: State, s': State, h: Home, k: nat, t: Task)
    requires LawBut(s, Some(t)) && Rep(m, s) && t < |s.prio| && Known(s, h) && k <= |ListAt(s, h)|
    requires SameLists(s, s', h) && ListAt(s', h) == Splice(ListAt(s, h), k, t)
    requires SameEnds(m, m', h) && Ends(m', ListAt(s', h), h)
    requires var l := ListAt(s, h);
      && (Before(l, k).Some? ==> Before(l, k).value < |m.next|) && (At(l, k).Some? ==> At(l, k).value < |m.prev|)
      && m'.next == Rewired(m.next, Before(l, k), Some(t), t, At(l, k)) && m'.prev == Rewired(m.prev, At(l, k), Some(t), t, Before(l, k))
    ensures Rep(m', s')
  {
    hide LawBut, Ends, Linked, Rewired, Splice;
    var l := ListAt(s, h);
    assert HomeRep(m, s, h);
    Listed(s, Some(t), h, t);
    SpliceLinked(m.next, m.prev, l, k, t);
    EndsKept(m, m', s, h);
    Elsewhere(s, Some(t), h, m.next, Before(l, k), Some(t), t, At(l, k));
    Elsewhere(s, Some(t), h, m.prev, At(l, k), Some(t), t, Before(l, k));
    OneList(m, m', s, s', Some(t), h, t);
  }

  /** The task at position i of list h leaves it. */
  lemma CutRep(m: Mem, m': Mem, s: State, s': State, h: Home, i: nat, t: Task)
    requires Law(s) && Rep(m, s) && t < |s.prio| && Known(s, h) && i < |ListAt(s, h)| && ListAt(s, h)[i] == t
    requires SameLists(s, s', h) && ListAt(s', h) == Cut(ListAt(s, h), i)
    requires SameEnds(m, m', h) && Ends(m', ListAt(s', h), h)
    requires var a, b := m.next[t], m.prev[t];
      && (a.Some? ==> a.value < |m.prev|) && (b.Some? ==> b.value < |m.next|)
      && m'.next == Rewired(m.next, b, a, t, None) && m'.prev == Rewired(m.prev, a, b, t, None)
    ensures Rep(m', s')
  {
    hide LawBut, Ends, Linked, Rewired, Cut;
    var l := ListAt(s, h);
    assert HomeRep(m, s, h);
    Listed(s, None, h, t);
    Neighbours(m.next, m.prev, l, i);
    CutLinked(m.next, m.prev, l, i);
    EndsKept(m, m', s, h);
    Elsewhere(s, None, h, m.next, m.prev[t], m.next[t], t, None);
    Elsewhere(s, None, h, m.prev, m.next[t], m.prev[t], t, None);
    OneList(m, m', s, s', None, h, t);
  }

  lemma EndsKnown(m: Mem, s: State, but: Option<Task>, h: Home)
    requires LawBut(s, but) && Rep(m, s) && Known(s, h)
    ensures Ends(m, ListAt(s, h), h) && Linked(m.next, m.prev, ListAt(s, h)) && Distinct(ListAt(s, h))
    ensures forall x :: x in ListAt(s, h) ==> x < |s.prio| == |m.next| && Some(x) != but
  {
    hide LawBut, Linked, Ends;
    assert HomeRep(m, s, h);
    forall x | x in ListAt(s, h) ensures x < |s.prio| && Some(x) != but { Listed(s, but, h, x); }
    Listed(s, but, h, 0);
  }

  lemma CutEnds(l: seq<Task>, i: nat)
    requires i < |l|
    ensures First(Cut(l, i)) == if i > 0 then First(l) else After(l, i)
    ensures Last(Cut(l, i)) == if i + 1 < |l| then Last(l) else Before(l, i)
    ensures Cut(l, i) == [] <==> |l| == 1
  {
  }

  lemma SpliceEnds(l: seq<Task>, k: nat, t: Task)
    requires k <= |l|
    ensures First(Splice(l, k, t)) == if k == 0 then Some(t) else First(l)
    ensures Last(Splice(l, k, t)) == if k == |l| then Some(t) else Last(l)
    ensures k == |l| ==> Splice(l, k, t) == l + [t]
  {
  }

  /** What taking a task off its list does to the lists. */
  lemma RemoveLists(s: State, t: Task)
    requires Law(s) && t < |s.prio| && HomeOf(s.prio, s.status, t) != Nowhere
    ensures var h := HomeOf(s.prio, s.status, t);
      && Known(s, h) && t in ListAt(s, h) && SameLists(s, Remove(s, t), h)
      && ListAt(Remove(s, t), h) == Cut(ListAt(s, h), Where(ListAt(s, h), t))
  {
    var h := HomeOf(s.prio, s.status, t);
    Listed(s, None, h, t);
  }

  /** And putting it onto one. */
  lemma PlaceLists(s: State, t: Task, st: Status, k: nat)
    requires LawBut(s, Some(t)) && t < |s.prio|
    requires var h := HomeOf(s.prio, s.status[t := st], t);
      && h != Nowhere && k == if h.OnDelayed? then Ahead(s.delayed, ByDue(s.due), ByDue(s.due)(t)) else |ListAt(s, h)|
    ensures var h := HomeOf(s.prio, s.status[t := st], t);
      && Known(s, h) && SameLists(s, Place(s, t, st), h) && k <= |ListAt(s, h)| && ListAt(Place(s, t, st), h) == Splice(ListAt(s, h), k, t)
  {
    var h := HomeOf(s.prio, s.status[t := st], t);
    if !h.OnDelayed? { SpliceEnds(ListAt(s, h), k, t); }
  }

  // --- Memory with a list changed -------------------------------------------------------------------------

  /** List h starts and ends where r does. */
  ghost function WithEnds(m: Mem, h: Home, r: seq<Task>): Mem
    requires h.OnReady? ==> h.p < |m.heads| == |m.tails| == |m.bitmap|
  {
    match h
    case OnReady(p) => m.(heads := m.heads[p := First(r)], tails := m.tails[p := Last(r)], bitmap := m.bitmap[p := r != []])
    case OnBlocked => m.(blocked := First(r))
    case OnDelayed => m.(delayed := First(r))
    case Nowhere => m
  }

  /** The memory holds l as list h. */
  ghost predicate Threads(m: Mem, h: Home, l: seq<Task>) {
    && |m.next| == |m.prev| && |m.heads| == |m.tails| == |m.bitmap| && (h.OnReady? ==> h.p < |m.heads|)
    && Linked(m.next, m.prev, l) && Distinct(l) && Ends(m, l, h)
  }

  /** Task t linked into l at position k. */
  ghost function SpliceMem(m: Mem, h: Home, l: seq<Task>, k: nat, t: Task): Mem
    requires Threads(m, h, l) && k <= |l| && t < |m.next|
  {
    WithEnds(m.(next := Rewired(m.next, Before(l, k), Some(t), t, At(l, k)), prev := Rewired(m.prev, At(l, k), Some(t), t, Before(l, k))),
             h, Splice(l, k, t))
  }

  /** The task at position i linked out of l. */
  ghost function CutMem(m: Mem, h: Home, l: seq<Task>, i: nat): Mem
    requires Threads(m, h, l) && i < |l|
  {
    WithEnds(m.(next := Rewired(m.next, Before(l, i), After(l, i), l[i], None), prev := Rewired(m.prev, After(l, i), Before(l, i), l[i], None)),
             h, Cut(l, i))
  }

  lemma EndsOf(m: Mem, h: Home, r: seq<Task>)
    requires |m.heads| == |m.tails| == |m.bitmap| && (h.OnReady? ==> h.p < |m.heads|)
    ensures SameEnds(m, WithEnds(m, h, r), h) && Ends(WithEnds(m, h, r), r, h)
    ensures WithEnds(m, h, r).next == m.next && WithEnds(m, h, r).prev == m.prev
  {
  }

  /** Every list of a state is held. */
  lemma Threaded(m: Mem, s: State, but: Option<Task>, h: Home)
    requires LawBut(s, but) && Rep(m, s) && Known(s, h)
    ensures Threads(m, h, ListAt(s, h)) && |m.next| == |m.prev| == |s.prio| && |m.heads| == |m.tails| == |m.bitmap| == |s.ready|
    ensures but.Some? ==> but.value !in ListAt(s, h)
  {
    RepSizes(m, s);
    hide Placed, Roles, Rep, Linked, Ends;
    EndsKnown(m, s, but, h);
  }

  lemma RepSizes(m: Mem, s: State)
    requires Rep(m, s)
    ensures |m.heads| == |m.tails| == |m.bitmap| == |s.ready| && |m.next| == |m.prev| == |s.prio|
  {
  }

  /** Where a placed task goes. */
  ghost function PlaceAt(s: State, t: Task, st: Status): (k: nat)
    requires Sizes(s) && t < |s.prio|
    ensures k <= |ListAt(s, HomeOf(s.prio, s.status[t := st], t))|
  {
    var h := HomeOf(s.prio, s.status[t := st], t);
    if h.OnDelayed? then Ahead(s.delayed, ByDue(s.due), ByDue(s.due)(t)) else |ListAt(s, h)|
  }

  /** Linking a task in at its place puts it where its new status says. */
  lemma PlaceRep(m: Mem, s: State, t: Task, st: Status)
    requires LawBut(s, Some(t)) && Rep(m, s) && t < |s.prio| && HomeOf(s.prio, s.status[t := st], t) != Nowhere
    ensures var h := HomeOf(s.prio, s.status[t := st], t);
      && Known(s, h) && Threads(m, h, ListAt(s, h)) && t !in ListAt(s, h) && t < |m.next|
      && Rep(SpliceMem(m, h, ListAt(s, h), PlaceAt(s, t, st), t), Place(s, t, st))
  {
    hide Placed, Roles, Ends, Rep, Linked, Rewired, Splice, SameEnds, SameLists, Place;
    var h, k := HomeOf(s.prio, s.status[t := st], t), PlaceAt(s, t, st);
    var l := ListAt(s, h);
    PlaceLists(s, t, st, k);
    Threaded(m, s, Some(t), h);
    NearKnown(m, h, l, k);
    var m1 := m.(next := Rewired(m.next, Before(l, k), Some(t), t, At(l, k)), prev := Rewired(m.prev, At(l, k), Some(t), t, Before(l, k)));
    EndsOf(m1, h, Splice(l, k, t));
    assert SameEnds(m, WithEnds(m1, h, Splice(l, k, t)), h) by { SameEndsVia(m, m1, WithEnds(m1, h, Splice(l, k, t)), h); }
    SpliceRep(m, WithEnds(m1, h, Splice(l, k, t)), s, Place(s, t, st), h, k, t);
  }

  lemma SameEndsVia(m: Mem, m1: Mem, m2: Mem, h: Home)
    requires m1 == m.(next := m1.next, prev := m1.prev) && SameEnds(m1, m2, h)
    ensures SameEnds(m, m2, h)
  {
  }

  lemma NearKnown(m: Mem, h: Home, l: seq<Task>, k: nat)
    requires Threads(m, h, l) && k <= |l|
    ensures (Before(l, k).Some? ==> Before(l, k).value < |m.next|) && (At(l, k).Some? ==> At(l, k).value < |m.prev|)
    ensures k < |l| ==> l[k] < |m.next| && m.next[l[k]] == After(l, k) && m.prev[l[k]] == Before(l, k)
    ensures After(l, k).Some? ==> After(l, k).value < |m.prev|
  {
  }

  /** Linking it out takes it off its list. */
  lemma RemoveRep(m: Mem, s: State, t: Task)
    requires Law(s) && Rep(m, s) && t < |s.prio| && HomeOf(s.prio, s.status, t) != Nowhere
    ensures var h := HomeOf(s.prio, s.status, t);
      && Known(s, h) && t in ListAt(s, h) && Threads(m, h, ListAt(s, h))
      && Rep(CutMem(m, h, ListAt(s, h), Where(ListAt(s, h), t)), Remove(s, t))
  {
    hide Placed, Roles, Ends, Rep, Linked, Rewired, SameEnds, SameLists, Cut, Remove;
    var h := HomeOf(s.prio, s.status, t);
    RemoveLists(s, t);
    var l, i := ListAt(s, h), Where(ListAt(s, h), t);
    Threaded(m, s, None, h);
    NearKnown(m, h, l, i);
    var m1 := m.(next := Rewired(m.next, Before(l, i), After(l, i), t, None), prev := Rewired(m.prev, After(l, i), Before(l, i), t, None));
    EndsOf(m1, h, Cut(l, i));
    assert SameEnds(m, WithEnds(m1, h, Cut(l, i)), h) by { SameEndsVia(m, m1, WithEnds(m1, h, Cut(l, i)), h); }
    CutRep(m, WithEnds(m1, h, Cut(l, i)), s, Remove(s, t), h, i, t);
  }

  /** Only lists are in memory. */
  lemma SameRep(m: Mem, s: State, s': State)
    requires Rep(m, s) && s'.ready == s.ready && s'.blocked == s.blocked && s'.delayed == s.delayed && |s'.prio| == |s.prio|
    ensures Rep(m, s')
  {
    forall h | Known(s', h) ensures HomeRep(m, s', h) { assert HomeRep(m, s, h); }
  }
}
