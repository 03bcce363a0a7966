/**
 The key-based W-TinyLFU: a window, a probationary and a protected list of keys, each oldest first, and its sketch. A
 key stands for the hash that its sketch and the slab form's use.
 */
module KeyedTiny {
  import opened Sketches
  import opened TinyModel

  datatype Entry = Entry(key: nat, cost: nat)

  datatype Keyed = Keyed(window: seq<Entry>, probation: seq<Entry>, protected: seq<Entry>, sketch: Counts)

  datatype Decided = Decided(state: Keyed, rejected: seq<nat>)

  datatype Removed = Removed(state: Keyed, victims: seq<nat>, freed: nat)

  // ------------------------------------------------------------------- the lists

  function CostOf(l: seq<Entry>): (c: nat)
  {
    if l == [] then 0 else l[0].cost + CostOf(l[1..])
  }

  /** Where a key stands in a list, or the list's length. */
  function At(l: seq<Entry>, key: nat): (k: nat)
    ensures k <= |l| && (k < |l| ==> l[k].key == key) && forall j :: 0 <= j < k ==> l[j].key != key
  {
    if l == [] then 0 else if l[0].key == key then 0 else 1 + At(l[1..], key)
  }

  predicate Contains(l: seq<Entry>, key: nat)
  {
    At(l, key) < |l|
  }

  function Without(l: seq<Entry>, key: nat): (r: seq<Entry>)
  {
    if Contains(l, key) then l[..At(l, key)] + l[At(l, key) + 1..] else l
  }

  /** Inserts the key at the front, or moves it there with its new cost. */
  function PushFront(l: seq<Entry>, key: nat, cost: nat): (r: seq<Entry>)
  {
    Without(l, key) + [Entry(key, cost)]
  }

  // -------------------------------------------------------------------- the sketch

  /** Counters of the key-based sketch are as wide as the machine's words and do not saturate. */
  function Count(c: seq<seq<nat>>, index: Indexing, key: nat): (r: seq<seq<nat>>)
  {
    seq(|c|, row requires 0 <= row < |c| =>
      if index(key, row) < |c[row]| then c[row][index(key, row) := c[row][index(key, row)] + 1] else c[row])
  }

  function Increment(c: Counts, p: Params, key: nat): (r: Counts)
  {
    var counted := Count(c.counters, p.index, key);
    if c.increments + 1 >= p.threshold then Counts(Halved(counted), 0) else Counts(counted, c.increments + 1)
  }

  // ---------------------------------------------------------------- the operations

  /** Demotes protected entries over the segment's capacity. */
  function Demote(s: Keyed, cap: nat): (r: Keyed)
    decreases |s.protected|
  {
    if CostOf(s.protected) > cap && s.protected != []
    then Demote(s.(protected := s.protected[1..], probation := s.probation + [s.protected[0]]), cap) else s
  }

  /** An access to a key of either main segment. */
  function TouchMain(s: Keyed, key: nat, cost: nat, cap: nat): (r: Keyed)
  {
    if Contains(s.protected, key) then s.(protected := PushFront(s.protected, key, cost))
    else if Contains(s.probation, key)
    then Demote(s.(probation := Without(s.probation, key), protected := s.protected + [Entry(key, cost)]), cap)
    else s
  }

  function OnAccess(s: Keyed, p: Params, key: nat, cost: nat): (r: Keyed)
  {
    var t := s.(sketch := Increment(s.sketch, p, key));
    if Contains(t.window, key) then t.(window := PushFront(t.window, key, cost))
    else TouchMain(t, key, cost, p.protCapacity)
  }

  function AdmitInternal(s: Keyed, e: Entry): (r: Keyed)
  {
    if Contains(s.protected, e.key) then s else s.(probation := PushFront(s.probation, e.key, e.cost))
  }

  function PeekLru(s: Keyed): (r: seq<Entry>)
  {
    if s.probation != [] then [s.probation[0]] else if s.protected != [] then [s.protected[0]] else []
  }

  /** Brings the window back to its target: each candidate into the main segments, or rejected. */
  function Manage(s: Keyed, p: Params): (r: Decided)
    decreases |s.window|
  {
    if CostOf(s.window) > p.windowTarget && s.window != [] then
      var e := s.window[0];
      var t := s.(window := s.window[1..]);
      if CostOf(t.probation) + CostOf(t.protected) + e.cost <= p.mainCapacity then Manage(AdmitInternal(t, e), p)
      else if PeekLru(t) == [] ||
          EstimateOf(t.sketch, p.index, e.key) >= EstimateOf(t.sketch, p.index, PeekLru(t)[0].key)
      then Manage(AdmitInternal(t, e), p)
      else
        var rest := Manage(t, p);
        Decided(rest.state, [e.key] + rest.rejected)
    else Decided(s, [])
  }

  function OnAdmit(s: Keyed, p: Params, key: nat, cost: nat): (r: Decided)
  {
    var t := s.(sketch := Increment(s.sketch, p, key));
    if Contains(t.protected, key) ||
        Contains(t.probation, key) then Decided(TouchMain(t, key, cost, p.protCapacity), [])
    else Manage(t.(window := PushFront(t.window, key, cost)), p)
  }

  function OnRemove(s: Keyed, key: nat): (r: Keyed)
  {
    if Contains(s.window, key) then s.(window := Without(s.window, key))
    else if Contains(s.probation, key) then s.(probation := Without(s.probation, key))
    else s.(protected := Without(s.protected, key))
  }

  /** Takes entries from the old end of a list until `want` is freed. */
  function Pop(l: seq<Entry>, want: nat): (r: (seq<Entry>, seq<nat>, nat))
  {
    if want == 0 || l == [] then (l, [], 0)
    else
      var (rest, keys, freed) := Pop(l[1..], Minus(want, l[0].cost));
      (rest, [l[0].key] + keys, l[0].cost + freed)
  }

  function OnEvict(s: Keyed, p: Params, want: nat): (r: Removed)
  {
    if want == 0 then Removed(s, [], 0)
    else
      var t := Demote(s, p.protCapacity);
      var (probation, first, freed) := Pop(t.probation, want);
      var (protected, second, more) := Pop(t.protected, Minus(want, freed));
      Removed(t.(probation := probation, protected := protected), first + second, freed + more)
  }
}
