/** The export cache with its locked sections interleaved: one thread adds entries, any
    number of others mark, clean up and release them between the adder's sections. */
module CacheSections {
  import opened Sequences
  import opened ExportCache

  /** Where the adding thread is inside msm_buf_get_export_id, or inside the cleaning form of
      msm_buf_put_export_id, which only the adding thread calls. */
  datatype Adder =
    | Outside
    | Missed(inode: nat, size: nat, q: QueueType)
    | HasExport(inode: nat, size: nat, q: QueueType, id: nat)
    | SawRoom(inode: nat, size: nat, q: QueueType, id: nat)  // used_count read without the lock
    | Undoing(id: nat)
    | Unexported(id: nat)

  datatype Section = Section(c: Cache, h: Host, adder: Adder)

  datatype Action =
    | Lookup(inode: nat, size: nat, q: QueueType)
    | Export1(a: Attempt)
    | CheckRoom
    | Insert(allocOk: bool)
    | Undo(stuck: set<nat>)
    | PutCleaning(id: nat, stuck: set<nat>)
    | DropEntry
    | PutMark(id: nat)
    | CleanupId(id: nat, stuck: set<nat>)
    | PutType(q: QueueType, stuck: set<nat>)

  ghost predicate Enabled(s: Section, a: Action) {
    match a
    case Lookup(_, size, _) => s.adder.Outside? && size != 0
    case Export1(x) => s.adder.Missed? && (x.Exported? ==> x.id != 0 && x.id !in s.h.issued)
    case CheckRoom => s.adder.HasExport?
    case Insert(_) => s.adder.SawRoom?
    case Undo(_) => s.adder.Undoing?
    case PutCleaning(_, _) => s.adder.Outside?
    case DropEntry => s.adder.Unexported?
    case PutMark(_) => true
    case CleanupId(id, _) => id != 0
    case PutType(_, _) => true
  }

  ghost function Apply(s: Section, a: Action): Section
    requires Enabled(s, a)
  {
    var c, h := s.c, s.h;
    match a
    case Lookup(inode, size, q) =>
      var i := FindKey(c.entries, inode, size, q);
      if i < |c.entries| then s.(c := c.(entries := SetInUse(c.entries, i, true)))
      else s.(adder := Missed(inode, size, q))
    case Export1(x) =>
      var e := Export(s.adder.inode, s.adder.size);
      (match x
       case Exported(id) =>
         s.(h := Host(h.table[id := e], h.issued[id := e]), adder := HasExport(s.adder.inode, s.adder.size, s.adder.q, id))
       case OutOfMemory => s.(adder := Outside)
       case Failed => s) // and retried; after the last attempt the call ends as for OutOfMemory
    case CheckRoom =>
      s.(adder := if c.used >= MAX_NUM_EXPORT_CACHE_ENTRY then Undoing(s.adder.id)
                  else SawRoom(s.adder.inode, s.adder.size, s.adder.q, s.adder.id))
    case Insert(allocOk) =>
      if !allocOk then s.(adder := Undoing(s.adder.id))
      else s.(adder := Outside,
              c := Cache(c.entries + [Entry(s.adder.inode, s.adder.size, s.adder.q, s.adder.id, true)], c.used + 1))
    case Undo(stuck) => s.(h := Unexport(h, s.adder.id, stuck).0, adder := Outside)
    case PutCleaning(id, stuck) =>
      var (h1, ok) := Unexport(h, id, stuck);
      s.(h := h1, adder := if ok then Unexported(id) else Outside)
    case DropEntry =>
      var i := FindId(c.entries, s.adder.id);
      s.(c := if i < |c.entries| then Drop(c, i) else c, adder := Outside)
    case PutMark(id) => s.(c := PutId(c, h, id, false, {}).0)
    case CleanupId(id, stuck) =>
      var (c1, h1) := CleanupFrom(c, h, id, stuck, 0);
      s.(c := c1, h := h1)
    case PutType(q, stuck) =>
      var (c1, h1) := PutTypeFrom(c, h, q, stuck, 0);
      s.(c := c1, h := h1)
  }

  ghost function Doomed(a: Adder): set<nat> {
    if a.Unexported? then {a.id} else {}
  }

  ghost predicate SoundSection(s: Section) {
    && AgreeBut(s.c, s.h, Doomed(s.adder))
    && (s.adder.Missed? || s.adder.HasExport? || s.adder.SawRoom? ==> s.adder.size != 0 && !Cached(s.c, Some(s.adder.inode), s.adder.size, s.adder.q))
    && (s.adder.HasExport? || s.adder.SawRoom? ==>
          s.adder.id in s.h.table && s.h.table[s.adder.id] == Export(s.adder.inode, s.adder.size) && s.adder.id !in s.c.Ids())
    && (s.adder.Undoing? ==> s.adder.id !in s.c.Ids())
    && (s.adder.SawRoom? ==> s.c.used < MAX_NUM_EXPORT_CACHE_ENTRY)
    && (s.adder.Unexported? ==> s.adder.id !in s.h.table)
  }

  /** What a removing section may do while the adder is between its own. */
  ghost predicate Shrinks(c: Cache, d: Cache) {
    && |d.entries| <= |c.entries|
    && (forall e :: e in d.entries ==> exists x :: x in c.entries && x.(inUse := e.inUse) == e)
  }

  /** What stays true of the adder's place when entries and exports only disappear. */
  lemma RemovalKeepsGood(s: Section, d: Cache, h1: Host)
    requires SoundSection(s) && AgreeBut(d, h1, Doomed(s.adder)) && Shrinks(s.c, d) && HostShrinks(s.c, s.h, d, h1)
    ensures SoundSection(s.(c := d, h := h1))
  {
  }

  lemma MarkShrinks(c: Cache, h: Host, i: nat, doomed: set<nat>)
    requires AgreeBut(c, h, doomed) && i < |c.entries|
    ensures var d := c.(entries := SetInUse(c.entries, i, false));
            AgreeBut(d, h, doomed) && Shrinks(c, d) && d.Ids() == c.Ids()
  {
    var d := c.(entries := SetInUse(c.entries, i, false));
    SameIds(c, d);
    assert c.entries[i] in c.entries;
    forall e | e in d.entries
      ensures exists x :: x in c.entries && x.(inUse := e.inUse) == e
    {
      var j :| 0 <= j < |d.entries| && d.entries[j] == e;
      assert c.entries[j] in c.entries && c.entries[j].(inUse := e.inUse) == e;
    }
  }

  lemma PutMarkKeeps(s: Section, id: nat)
    requires SoundSection(s)
    ensures SoundSection(Apply(s, PutMark(id)))
  {
    var i := FindId(s.c.entries, id);
    if i < |s.c.entries| {
      MarkShrinks(s.c, s.h, i, Doomed(s.adder));
      RemovalKeepsGood(s, s.c.(entries := SetInUse(s.c.entries, i, false)), s.h);
    }
  }

  lemma DropEntryKeeps(s: Section)
    requires SoundSection(s) && s.adder.Unexported?
    ensures SoundSection(Apply(s, DropEntry))
  {
    var i := FindId(s.c.entries, s.adder.id);
    if i < |s.c.entries| {
      DropKeeps(s.c, s.h, i, {s.adder.id}, {s.adder.id});
    }
  }

  lemma LookupKeeps(s: Section, inode: nat, size: nat, q: QueueType)
    requires SoundSection(s) && Enabled(s, Lookup(inode, size, q))
    ensures SoundSection(Apply(s, Lookup(inode, size, q)))
  {
  }

  lemma ExportKeeps(s: Section, x: Attempt)
    requires SoundSection(s) && Enabled(s, Export1(x))
    ensures SoundSection(Apply(s, Export1(x)))
  {
    assert forall e :: e in s.c.entries ==> e.id in s.h.issued;
  }

  lemma RoomKeeps(s: Section)
    requires SoundSection(s) && Enabled(s, CheckRoom)
    ensures SoundSection(Apply(s, CheckRoom))
  {
    hide AgreeBut;
  }

  lemma InsertKeeps(s: Section, allocOk: bool)
    requires SoundSection(s) && Enabled(s, Insert(allocOk))
    ensures SoundSection(Apply(s, Insert(allocOk)))
  {
  }

  lemma UndoKeeps(s: Section, stuck: set<nat>)
    requires SoundSection(s) && Enabled(s, Undo(stuck))
    ensures SoundSection(Apply(s, Undo(stuck)))
  {
    assert forall e :: e in s.c.entries ==> e.id in s.c.Ids();
  }

  lemma CleaningKeeps(s: Section, id: nat, stuck: set<nat>)
    requires SoundSection(s) && Enabled(s, PutCleaning(id, stuck))
    ensures SoundSection(Apply(s, PutCleaning(id, stuck)))
  {
  }

  lemma SoundAgrees(s: Section)
    requires SoundSection(s)
    ensures AgreeBut(s.c, s.h, Doomed(s.adder))
  {
  }

  lemma StepGood(s: Section, a: Action)
    requires SoundSection(s) && Enabled(s, a)
    ensures SoundSection(Apply(s, a))
  {
    hide SoundSection;
    var c, h := s.c, s.h;
    match a
    case Lookup(inode, size, q) => LookupKeeps(s, inode, size, q);
    case Export1(x) => ExportKeeps(s, x);
    case CheckRoom => RoomKeeps(s);
    case Insert(allocOk) => InsertKeeps(s, allocOk);
    case Undo(stuck) => UndoKeeps(s, stuck);
    case PutCleaning(id, stuck) => CleaningKeeps(s, id, stuck);
    case DropEntry => DropEntryKeeps(s);
    case PutMark(id) => PutMarkKeeps(s, id);
    case CleanupId(id, stuck) =>
      SoundAgrees(s);
      CleanupFromKeeps(c, h, id, stuck, 0, Doomed(s.adder));
      var (d, h1) := CleanupFrom(c, h, id, stuck, 0);
      RemovalKeepsGood(s, d, h1);
    case PutType(q, stuck) =>
      SoundAgrees(s);
      PutTypeKeeps(c, h, q, stuck, 0, Doomed(s.adder));
      var (d, h1) := PutTypeFrom(c, h, q, stuck, 0);
      RemovalKeepsGood(s, d, h1);
  }

  ghost predicate SectionsReach(s: Section, run: seq<Action>, t: Section)
    decreases |run|
  {
    if run == [] then s == t else Enabled(s, run[0]) && SectionsReach(Apply(s, run[0]), run[1..], t)
  }

  lemma {:induction false} GoodHolds(s: Section, run: seq<Action>, t: Section)
    requires SoundSection(s) && SectionsReach(s, run, t)
    ensures SoundSection(t)
    decreases |run|
  {
    if run != [] {
      StepGood(s, run[0]);
      GoodHolds(Apply(s, run[0]), run[1..], t);
    }
  }

  /** For every interleaving of one adder with any removers, from an empty cache: used_count
      is the list's length and never exceeds the limit although it is tested without the
      lock; no two entries share a key or an id; and every cached id denotes its inode and
      size at the host, except one the adder has unexported and is about to drop. */
  lemma CacheStaysSound(h: Host, run: seq<Action>, t: Section)
    requires HostInv(h) && SectionsReach(Section(Cache([], 0), h, Outside), run, t)
    ensures t.c.used == |t.c.entries| <= MAX_NUM_EXPORT_CACHE_ENTRY
    ensures forall i, j :: 0 <= i < j < |t.c.entries| ==>
              t.c.entries[i].id != t.c.entries[j].id &&
              (t.c.entries[i].inode, t.c.entries[i].queueType, t.c.entries[i].size) !=
                (t.c.entries[j].inode, t.c.entries[j].queueType, t.c.entries[j].size)
    ensures forall e :: e in t.c.entries && t.adder != Unexported(e.id) ==>
              e.id in t.h.table && t.h.table[e.id] == Export(e.inode, e.size)
  {
    GoodHolds(Section(Cache([], 0), h, Outside), run, t);
  }

  // ---- nothing in between ----

  ghost predicate Leads(s: Section, t: Section) {
    exists run :: SectionsReach(s, run, t)
  }

  lemma LeadsNowhere(s: Section)
    ensures Leads(s, s)
  {
    assert SectionsReach(s, [], s);
  }

  lemma LeadsBy(s: Section, a: Action, t: Section)
    requires Enabled(s, a) && Leads(Apply(s, a), t)
    ensures Leads(s, t)
  {
    hide Apply, Enabled;
    var run :| SectionsReach(Apply(s, a), run, t);
    assert ([a] + run)[1..] == run;
    assert SectionsReach(s, [a] + run, t);
  }

  /** The retry loop, up to the first export, the end of memory, or the last attempt. */
  lemma {:induction false} RetriesLead(c: Cache, h: Host, x: Export, q: QueueType, attempts: seq<Attempt>, t: Section)
    requires forall i :: 0 <= i < |attempts| && attempts[i].Exported? ==> attempts[i].id != 0 && attempts[i].id !in h.issued
    requires var (h1, id) := TryExport(h, x, attempts);
             Leads(if id == 0 then Section(c, h1, Outside) else Section(c, h1, HasExport(x.inode, x.size, q, id)), t)
    ensures Leads(Section(c, h, Missed(x.inode, x.size, q)), t)
    decreases |attempts|
  {
    hide SectionsReach, Leads;
    var s := Section(c, h, Missed(x.inode, x.size, q));
    if attempts == [] {
      LeadsBy(s, Export1(OutOfMemory), t);
    } else {
      if attempts[0].Failed? { RetriesLead(c, h, x, q, attempts[1..], t); }
      LeadsBy(s, Export1(attempts[0]), t);
    }
  }

  /** Run without interruption, the adder's sections come to what the function for the whole
      call says. */
  lemma GetIdLeads(c: Cache, h: Host, inode: nat, size: nat, q: QueueType, w: World)
    requires HostInv(h) && Allowed(h, Some(inode), w) && size != 0
    ensures var (d, h1, id) := GetId(c, h, Some(inode), size, q, w); Leads(Section(c, h, Outside), Section(d, h1, Outside))
  {
    hide SectionsReach, Leads, TryExport, Unexport;
    var s, x := Section(c, h, Outside), Export(inode, size);
    var (d, h2, got) := GetId(c, h, Some(inode), size, q, w);
    var t := Section(d, h2, Outside);
    LeadsNowhere(t);
    TryExportSound(h, x, w.attempts);
    var (h1, id) := TryExport(h, x, w.attempts);
    if FindKey(c.entries, inode, size, q) == |c.entries| {
      if id != 0 { ExportLeads(c, h1, x, q, id, w, t); }
      RetriesLead(c, h, x, q, w.attempts, t);
    }
    LeadsBy(s, Lookup(inode, size, q), t);
  }

  lemma ExportLeads(c: Cache, h: Host, x: Export, q: QueueType, id: nat, w: World, t: Section)
    requires t == if c.used >= MAX_NUM_EXPORT_CACHE_ENTRY || !w.allocOk then Section(c, Unexport(h, id, w.stuck).0, Outside)
                  else Section(Cache(c.entries + [Entry(x.inode, x.size, q, id, true)], c.used + 1), h, Outside)
    ensures Leads(Section(c, h, HasExport(x.inode, x.size, q, id)), t)
  {
    hide SectionsReach, Leads, Unexport;
    LeadsNowhere(t);
    var s := Section(c, h, HasExport(x.inode, x.size, q, id));
    if c.used >= MAX_NUM_EXPORT_CACHE_ENTRY {
      LeadsBy(Section(c, h, Undoing(id)), Undo(w.stuck), t);
    } else {
      if !w.allocOk { LeadsBy(Section(c, h, Undoing(id)), Undo(w.stuck), t); }
      LeadsBy(Section(c, h, SawRoom(x.inode, x.size, q, id)), Insert(w.allocOk), t);
    }
    LeadsBy(s, CheckRoom, t);
  }

  /** The same for giving an id back, in both forms. */
  lemma PutIdLeads(c: Cache, h: Host, id: nat, cleanup: bool, stuck: set<nat>)
    ensures var (d, h1) := PutId(c, h, id, cleanup, stuck); Leads(Section(c, h, Outside), Section(d, h1, Outside))
  {
    hide SectionsReach, Leads;
    var s := Section(c, h, Outside);
    var (d, h2) := PutId(c, h, id, cleanup, stuck);
    var t := Section(d, h2, Outside);
    LeadsNowhere(t);
    if cleanup {
      var (h1, ok) := Unexport(h, id, stuck);
      if ok { LeadsBy(Section(c, h1, Unexported(id)), DropEntry, t); }
      LeadsBy(s, PutCleaning(id, stuck), t);
    } else {
      assert PutId(c, h, id, false, {}).0 == d && h2 == h;
      LeadsBy(s, PutMark(id), t);
    }
  }
}
