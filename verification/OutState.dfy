/** The state of an output chain: which buffers there are, in which lists, and the bytes they hold. */
module OutState {
  import opened OutBuf

  type Id = nat
  type Store = map<Id, Buf>

  datatype Option<T> = None | Some(value: T)

  /** Where a buffer is: waiting for output, in the list being built, kept until sent, free for copying, the one being
      copied to, or with someone else. */
  datatype Place = Queued | Leaving | Kept | Spare | Taken | Away

  type Places = map<Id, Place>

  ghost predicate Distinct(s: seq<Id>) { forall i, j :: 0 <= i < j < |s| ==> s[i] != s[j] }

  ghost predicate Stored(st: Store, pl: Places) { st.Keys == pl.Keys && forall id :: id in st ==> Ok(st[id]) }

  /** The bytes of a list of buffers. */
  ghost function Flat(st: Store, s: seq<Id>): seq<Byte>
    requires forall id :: id in s ==> id in st && Ok(st[id])
  {
    if s == [] then [] else Bytes(st[s[0]]) + Flat(st, s[1..])
  }

  ghost predicate Known(st: Store, s: seq<Id>) { forall id :: id in s ==> id in st && Ok(st[id]) }

  lemma KnownParts(st: Store, a: seq<Id>, b: seq<Id>)
    requires Known(st, a) && Known(st, b)
    ensures Known(st, a + b) && (a != [] ==> Known(st, a[1..]))
  {}

  lemma {:induction false} FlatParts(st: Store, a: seq<Id>, b: seq<Id>)
    requires Known(st, a) && Known(st, b)
    ensures Known(st, a + b) && Flat(st, a + b) == Flat(st, a) + Flat(st, b)
  {
    KnownParts(st, a, b);
    if a == [] {
      assert a + b == b;
    } else {
      var ab, rest := a + b, a[1..];
      assert ab[1..] == rest + b && ab[0] == a[0];
      FlatParts(st, rest, b);
      FlatFirst(st, a);
      FlatFirst(st, ab);
      Join3(Bytes(st[a[0]]), Flat(st, rest), Flat(st, b));
    }
  }

  lemma Join3<T>(a: seq<T>, b: seq<T>, c: seq<T>)
    ensures a + (b + c) == (a + b) + c
  {}

  lemma FlatFirst(st: Store, s: seq<Id>)
    requires Known(st, s) && s != []
    ensures s[0] in s && Known(st, s[1..]) && Flat(st, s) == Bytes(st[s[0]]) + Flat(st, s[1..])
  {}

  lemma FlatOne(st: Store, id: Id)
    requires id in st && Ok(st[id])
    ensures Flat(st, [id]) == Bytes(st[id])
  {
    assert [id][1..] == [];
  }

  lemma {:induction false} FlatSame(st: Store, st': Store, s: seq<Id>)
    requires Known(st, s) && Known(st', s) && forall id :: id in s ==> Bytes(st[id]) == Bytes(st'[id])
    ensures Flat(st, s) == Flat(st', s)
  {
    if s != [] {
      assert s[0] in s;
      FlatSame(st, st', s[1..]);
    }
  }

  /** A change to a buffer outside the list. */
  lemma FlatKept(st: Store, s: seq<Id>, id: Id, b: Buf)
    requires Known(st, s) && id !in s
    ensures Known(st[id := b], s) && Flat(st[id := b], s) == Flat(st, s)
  {
    FlatSame(st, st[id := b], s);
  }

  lemma DistinctFirst(s: seq<Id>)
    requires Distinct(s) && s != []
    ensures s[0] !in s[1..] && Distinct(s[1..])
  {}

  lemma DistinctMore(s: seq<Id>, id: Id)
    requires Distinct(s) && id !in s
    ensures Distinct(s + [id])
  {}

  // The parts of the invariant

  /** Buffers made for copying are those with the tag. */
  ghost predicate Tagged(st: Store, made: set<Id>, tag: nat) {
    made <= st.Keys && forall id :: id in st ==> (id in made <==> st[id].tag == tag)
  }

  ghost predicate QueueOk(pl: Places, made: set<Id>, s: seq<Id>) {
    Distinct(s) && forall id :: id in s ==> id in pl && pl[id] == Queued && id !in made
  }

  ghost predicate OutOk(pl: Places, s: seq<Id>) {
    Distinct(s) && forall id :: id in s ==> id in pl && pl[id] == Leaving
  }

  ghost predicate FreeOk(st: Store, pl: Places, made: set<Id>, s: seq<Id>) {
    Distinct(s) && forall id :: id in s ==> id in pl && pl[id] == Spare && id in made && id in st && Blank(st[id])
  }

  ghost predicate BusyOk(pl: Places, made: set<Id>, s: seq<Id>) {
    && (forall id :: id in s ==> id in pl && (id in made ==> pl[id] == Kept))
    && forall i, j :: 0 <= i < j < |s| && s[i] == s[j] ==> s[i] !in made
  }

  /** What the filter still has to send: no copy buffer among them is empty. */
  ghost predicate PendingOk(st: Store, pl: Places, made: set<Id>, s: seq<Id>) {
    Distinct(s) && forall id :: id in s ==>
      && id in pl && id in st && Ok(st[id])
      && if id in made then pl[id] in {Kept, Leaving} && Size(st[id]) > 0 else pl[id] in {Away, Leaving}
  }

  /** A buffer made for copying: its memory is its own from `start` to `end`. */
  ghost predicate Made(b: Buf) {
    b.temporary && !b.memory && !b.mmap && b.start < b.end == |b.mem| && b.start <= b.pos
  }

  /** Every copy buffer is in the list of its place. */
  ghost predicate OwnedAt(st: Store, pl: Places, id: Id, out: seq<Id>, busy: seq<Id>, free: seq<Id>, buf: Option<Id>) {
    && id in st && id in pl && Made(st[id]) && pl[id] in {Leaving, Kept, Spare, Taken}
    && (pl[id] == Leaving ==> id in out) && (pl[id] == Kept ==> id in busy)
    && (pl[id] == Spare ==> id in free) && (pl[id] == Taken ==> buf == Some(id))
  }

  ghost predicate Owned(st: Store, pl: Places, made: set<Id>, out: seq<Id>, busy: seq<Id>, free: seq<Id>,
      buf: Option<Id>) {
    forall id :: id in made ==> OwnedAt(st, pl, id, out, busy, free, buf)
  }

  /** The buffer to copy to, if there is one, is blank. */
  ghost predicate TakenOk(st: Store, pl: Places, made: set<Id>, buf: Option<Id>) {
    buf.Some? ==> buf.value in st && buf.value in made && buf.value in pl && pl[buf.value] == Taken
  }

  datatype State = State(store: Store, tag: nat, inn: seq<Id>, out: seq<Id>, busy: seq<Id>, free: seq<Id>,
                         buf: Option<Id>, pending: seq<Id>, pl: Places, made: set<Id>)

  ghost predicate Sound(s: State) {
    && Stored(s.store, s.pl) && Tagged(s.store, s.made, s.tag)
    && QueueOk(s.pl, s.made, s.inn) && OutOk(s.pl, s.out) && FreeOk(s.store, s.pl, s.made, s.free)
    && BusyOk(s.pl, s.made, s.busy) && PendingOk(s.store, s.pl, s.made, s.pending)
    && Owned(s.store, s.pl, s.made, s.out, s.busy, s.free, s.buf) && TakenOk(s.store, s.pl, s.made, s.buf)
  }

  // One buffer or place changed: what each part needs to stay as it is

  lemma QueueKept(pl: Places, made: set<Id>, s: seq<Id>, id: Id, p: Place)
    requires QueueOk(pl, made, s) && id !in s
    ensures QueueOk(pl[id := p], made, s)
  {}

  lemma OutKept(pl: Places, s: seq<Id>, id: Id, p: Place)
    requires OutOk(pl, s) && id !in s
    ensures OutOk(pl[id := p], s)
  {}

  lemma FreeKept(st: Store, pl: Places, made: set<Id>, s: seq<Id>, id: Id, b: Buf, p: Place)
    requires FreeOk(st, pl, made, s) && id !in s
    ensures FreeOk(st[id := b], pl[id := p], made, s)
  {}

  lemma BusyKept(pl: Places, made: set<Id>, s: seq<Id>, id: Id, p: Place)
    requires BusyOk(pl, made, s) && (id in s && id in made ==> p == Kept)
    ensures BusyOk(pl[id := p], made, s)
  {}

  lemma PendingKept(st: Store, pl: Places, made: set<Id>, s: seq<Id>, id: Id, b: Buf, p: Place)
    requires PendingOk(st, pl, made, s) && id !in s
    ensures PendingOk(st[id := b], pl[id := p], made, s)
  {}

  lemma OwnedKept(st: Store, pl: Places, made: set<Id>, out: seq<Id>, busy: seq<Id>, free: seq<Id>, buf: Option<Id>,
      id: Id, b: Buf, p: Place)
    requires Owned(st, pl, made, out, busy, free, buf) && id !in made
    ensures Owned(st[id := b], pl[id := p], made, out, busy, free, buf)
  {
    forall x | x in made ensures OwnedAt(st[id := b], pl[id := p], x, out, busy, free, buf) {
      assert OwnedAt(st, pl, x, out, busy, free, buf);
    }
  }

  /** What does not depend on the lists when one buffer and its place change. */
  lemma BaseKept(s: State, id: Id, b: Buf, p: Place)
    requires Sound(s) && id in s.store && Ok(b) && b.tag == s.store[id].tag
    ensures Stored(s.store[id := b], s.pl[id := p]) && Tagged(s.store[id := b], s.made, s.tag)
  {}

  // The steps: what each does to the lists

  /**
   * The first buffer of the queue, changed to b without a change of bytes, goes elsewhere or to the list being built.
   */
  ghost function Pop(s: State, b: Buf, p: Place): State
    requires s.inn != []
  {
    var id := s.inn[0];
    s.(store := s.store[id := b], pl := s.pl[id := p], inn := if p == Queued then s.inn else s.inn[1..],
       out := if p == Leaving then s.out + [id] else s.out)
  }

  lemma FrontAlone(s: State)
    requires Sound(s) && s.inn != []
    ensures var id := s.inn[0];
      id in s.store && id !in s.made && id !in s.out && id !in s.free && id !in s.pending && s.buf != Some(id)
    ensures s.inn[0] !in s.inn[1..] && Known(s.store, s.inn) && Known(s.store, s.out) && Known(s.store, s.pending)
  {
    var id := s.inn[0];
    assert id in s.inn && s.pl[id] == Queued;
    DistinctFirst(s.inn);
  }

  lemma PopSound(s: State, b: Buf, p: Place)
    requires Sound(s) && s.inn != [] && Ok(b) && b.tag == s.store[s.inn[0]].tag && p in {Queued, Leaving, Away}
    ensures Sound(Pop(s, b, p))
  {
    var id, t := s.inn[0], Pop(s, b, p);
    FrontAlone(s);
    BaseKept(s, id, b, p);
    FreeKept(s.store, s.pl, s.made, s.free, id, b, p);
    BusyKept(s.pl, s.made, s.busy, id, p);
    PendingKept(s.store, s.pl, s.made, s.pending, id, b, p);
    OwnedKept(s.store, s.pl, s.made, s.out, s.busy, s.free, s.buf, id, b, p);
    OutKept(s.pl, s.out, id, p);
    assert QueueOk(t.pl, t.made, t.inn);
    DistinctMore(s.out, id);
    assert OutOk(t.pl, t.out);
    assert Owned(t.store, t.pl, t.made, t.out, t.busy, t.free, t.buf);
  }

  /** The buffer being copied to, as a list. */
  ghost function Hand(buf: Option<Id>): seq<Id> { if buf.Some? then [buf.value] else [] }

  ghost predicate Readable(s: State) {
    Known(s.store, s.out) && Known(s.store, Hand(s.buf)) && Known(s.store, s.inn) && Known(s.store, s.pending)
  }

  lemma SoundReadable(s: State)
    requires Sound(s)
    ensures Readable(s) && Known(s.store, s.busy) && Known(s.store, s.free)
  {}

  /** The bytes that have come in and not been handed to the filter. */
  ghost function Line(s: State): seq<Byte>
    requires Readable(s)
  {
    Flat(s.store, s.out) + Flat(s.store, Hand(s.buf)) + Flat(s.store, s.inn)
  }

  /** The bytes the filter has to send. */
  ghost function Unsent(s: State): seq<Byte>
    requires Readable(s)
  {
    Flat(s.store, s.pending)
  }

  /** The list being built is new to the filter, and no copy buffer in it is empty. */
  ghost predicate Fresh(s: State) {
    forall id :: id in s.out ==>
      id in s.store && Ok(s.store[id]) && id !in s.pending && (id in s.made ==> Size(s.store[id]) > 0)
  }

  lemma PopQueue(s: State, b: Buf, p: Place)
    requires Sound(s) && s.inn != [] && Ok(b) && p in {Queued, Leaving, Away}
    requires Bytes(b) == Bytes(s.store[s.inn[0]]) && (p == Away ==> Bytes(b) == [])
    ensures var t := Pop(s, b, p);
      Known(t.store, t.inn) && Flat(s.store, s.inn) == (if p == Leaving then Bytes(b) else []) + Flat(t.store, t.inn)
  {
    var id := s.inn[0];
    FrontAlone(s);
    FlatFirst(s.store, s.inn);
    FlatKept(s.store, s.inn[1..], id, b);
    if p == Queued { FlatFirst(s.store[id := b], s.inn); }
  }

  lemma PopOut(s: State, b: Buf, p: Place)
    requires Sound(s) && s.inn != [] && Ok(b)
    ensures var t := Pop(s, b, p);
      Known(t.store, t.out) && Flat(t.store, t.out) == Flat(s.store, s.out) + if p == Leaving then Bytes(b) else []
  {
    var id := s.inn[0];
    FrontAlone(s);
    FlatKept(s.store, s.out, id, b);
    if p == Leaving {
      FlatOne(s.store[id := b], id);
      FlatParts(s.store[id := b], s.out, [id]);
    }
  }

  lemma Regroup<T>(a: seq<T>, x: seq<T>, h: seq<T>, q: seq<T>)
    requires x == [] || h == []
    ensures (a + x) + h + q == a + h + (x + q)
  {}

  lemma PopFresh(s: State, b: Buf, p: Place)
    requires Sound(s) && s.inn != [] && Ok(b) && p in {Queued, Leaving, Away} && Fresh(s)
    ensures Fresh(Pop(s, b, p))
  {
    FrontAlone(s);
  }

  ghost predicate Popping(s: State, b: Buf, p: Place) {
    && Sound(s) && s.inn != [] && s.inn[0] in s.store && Ok(b) && b.tag == s.store[s.inn[0]].tag
      && p in {Queued, Leaving, Away}
    && Bytes(b) == Bytes(s.store[s.inn[0]]) && (p == Away ==> Bytes(b) == []) && (p == Leaving ==> s.buf == None)
  }

  lemma PopFlow(s: State, b: Buf, p: Place)
    requires Popping(s, b, p) && Readable(s) && Readable(Pop(s, b, p))
    ensures Line(Pop(s, b, p)) == Line(s)
  {
    var t, x := Pop(s, b, p), if p == Leaving then Bytes(b) else [];
    FrontAlone(s);
    PopQueue(s, b, p);
    PopOut(s, b, p);
    FlatKept(s.store, Hand(s.buf), s.inn[0], b);
    Regroup(Flat(s.store, s.out), x, Flat(s.store, Hand(s.buf)), Flat(t.store, t.inn));
  }

  lemma PopLine(s: State, b: Buf, p: Place)
    requires Popping(s, b, p)
    ensures var t := Pop(s, b, p);
      Sound(t) && Readable(s) && Readable(t) && Line(t) == Line(s) && Unsent(t) == Unsent(s)
  {
    PopSound(s, b, p);
    SoundReadable(s);
    SoundReadable(Pop(s, b, p));
    FrontAlone(s);
    PopFlow(s, b, p);
    FlatKept(s.store, s.pending, s.inn[0], b);
  }

  // A buffer to copy to

  ghost function Pick(s: State): State
    requires s.free != []
  {
    s.(free := s.free[1..], buf := Some(s.free[0]), pl := s.pl[s.free[0] := Taken])
  }

  lemma FreeAlone(s: State)
    requires Sound(s) && s.free != []
    ensures var id := s.free[0];
      id in s.store && id in s.made && id !in s.inn && id !in s.out && id !in s.busy && id !in s.pending
    ensures s.free[0] !in s.free[1..] && Blank(s.store[s.free[0]])
  {
    assert s.free[0] in s.free;
    DistinctFirst(s.free);
  }

  lemma PickOwned(s: State)
    requires Sound(s) && s.free != [] && s.buf == None
    ensures var t := Pick(s); Owned(t.store, t.pl, t.made, t.out, t.busy, t.free, t.buf)
  {
    var t := Pick(s);
    forall x | x in t.made ensures OwnedAt(t.store, t.pl, x, t.out, t.busy, t.free, t.buf) {
      assert OwnedAt(s.store, s.pl, x, s.out, s.busy, s.free, s.buf);
    }
  }

  lemma PickSound(s: State)
    requires Sound(s) && s.free != [] && s.buf == None
    ensures Sound(Pick(s))
  {
    var id, t := s.free[0], Pick(s);
    FreeAlone(s);
    QueueKept(s.pl, s.made, s.inn, id, Taken);
    OutKept(s.pl, s.out, id, Taken);
    BusyKept(s.pl, s.made, s.busy, id, Taken);
    assert s.store[id := s.store[id]] == s.store;
    PendingKept(s.store, s.pl, s.made, s.pending, id, s.store[id], Taken);
    PickOwned(s);
  }

  ghost function New(s: State, id: Id, b: Buf): State {
    s.(store := s.store[id := b], pl := s.pl[id := Taken], made := s.made + {id}, buf := Some(id))
  }

  lemma NewSound(s: State, id: Id, b: Buf)
    requires Sound(s) && id !in s.store && Ok(b) && Made(b) && b.tag == s.tag && s.buf == None
    ensures Sound(New(s, id, b))
  {
    var t := New(s, id, b);
    forall x | x in t.made ensures OwnedAt(t.store, t.pl, x, t.out, t.busy, t.free, t.buf) {
      if x != id { assert OwnedAt(s.store, s.pl, x, s.out, s.busy, s.free, s.buf); }
    }
  }

  /** Getting a blank buffer moves no bytes. */
  lemma PickLine(s: State)
    requires Sound(s) && s.free != [] && s.buf == None
    ensures var t := Pick(s);
      Sound(t) && Readable(t) && Line(t) == Line(s) && Unsent(t) == Unsent(s) && Blank(t.store[t.buf.value])
    ensures Fresh(s) ==> Fresh(Pick(s))
  {
    PickSound(s);
    FreeAlone(s);
    SoundReadable(Pick(s));
    FlatOne(s.store, s.free[0]);
  }

  lemma NewLine(s: State, id: Id, b: Buf)
    requires Sound(s) && id !in s.store && Ok(b) && Made(b) && Blank(b) && b.tag == s.tag && s.buf == None
    ensures var t := New(s, id, b); Sound(t) && Readable(t) && Line(t) == Line(s) && Unsent(t) == Unsent(s)
    ensures Fresh(s) ==> Fresh(New(s, id, b))
  {
    var t := New(s, id, b);
    NewSound(s, id, b);
    SoundReadable(s);
    SoundReadable(t);
    FlatKept(s.store, s.out, id, b);
    FlatKept(s.store, s.inn, id, b);
    FlatKept(s.store, s.pending, id, b);
    FlatOne(t.store, id);
  }

  // Copying

  /** Bytes go from the first buffer of the queue, which becomes b, to the buffer taken, which becomes d. */
  ghost function Load(s: State, b: Buf, d: Buf): State
    requires s.inn != [] && s.buf.Some?
  {
    s.(store := s.store[s.inn[0] := b][s.buf.value := d])
  }

  ghost predicate Loading(s: State, b: Buf, d: Buf) {
    && Sound(s) && s.inn != [] && s.buf.Some? && s.inn[0] in s.store && s.buf.value in s.store
    && Ok(b) && b.tag == s.store[s.inn[0]].tag && Ok(d) && Made(d) && d.tag == s.tag
    && Blank(s.store[s.buf.value]) && Bytes(s.store[s.inn[0]]) == Bytes(d) + Bytes(b)
  }

  lemma TakenAlone(s: State)
    requires Sound(s) && s.buf.Some?
    ensures var id := s.buf.value;
      id in s.store && id in s.made && id !in s.inn && id !in s.out && id !in s.busy && id !in s.free
      && id !in s.pending
  {}

  lemma LoadOwned(s: State, id: Id, d: Buf)
    requires Sound(s) && s.buf == Some(id) && id in s.made && Made(d)
    ensures Owned(s.store[id := d], s.pl, s.made, s.out, s.busy, s.free, s.buf)
  {
    forall x | x in s.made ensures OwnedAt(s.store[id := d], s.pl, x, s.out, s.busy, s.free, s.buf) {
      assert OwnedAt(s.store, s.pl, x, s.out, s.busy, s.free, s.buf);
    }
  }

  /** A change to the buffer being copied to. */
  lemma WriteSound(s: State, d: Buf)
    requires Sound(s) && s.buf.Some? && Ok(d) && Made(d) && d.tag == s.tag
    ensures Sound(s.(store := s.store[s.buf.value := d]))
  {
    var id := s.buf.value;
    TakenAlone(s);
    assert s.pl[id := s.pl[id]] == s.pl;
    BaseKept(s, id, d, s.pl[id]);
    FreeKept(s.store, s.pl, s.made, s.free, id, d, s.pl[id]);
    PendingKept(s.store, s.pl, s.made, s.pending, id, d, s.pl[id]);
    LoadOwned(s, id, d);
  }

  /** A change to the first buffer of the queue. */
  lemma DrainSound(s: State, b: Buf)
    requires Sound(s) && s.inn != [] && Ok(b) && b.tag == s.store[s.inn[0]].tag
    ensures Sound(s.(store := s.store[s.inn[0] := b]))
  {
    PopSound(s, b, Queued);
    assert s.inn[0] in s.inn && s.pl[s.inn[0] := Queued] == s.pl;
  }

  lemma LoadSound(s: State, b: Buf, d: Buf)
    requires Loading(s, b, d)
    ensures Sound(Load(s, b, d))
  {
    DrainSound(s, b);
    WriteSound(s.(store := s.store[s.inn[0] := b]), d);
  }

  lemma LoadFlat(s: State, b: Buf, d: Buf, l: seq<Id>)
    requires Loading(s, b, d) && Known(s.store, l) && s.inn[0] !in l && s.buf.value !in l
    ensures var t := Load(s, b, d); Known(t.store, l) && Flat(t.store, l) == Flat(s.store, l)
  {
    FlatKept(s.store, l, s.inn[0], b);
    FlatKept(s.store[s.inn[0] := b], l, s.buf.value, d);
  }

  lemma LoadFlow(s: State, b: Buf, d: Buf)
    requires Loading(s, b, d) && Readable(s) && Readable(Load(s, b, d))
    ensures var t := Load(s, b, d); Line(t) == Line(s) && Unsent(t) == Unsent(s)
  {
    var t := Load(s, b, d);
    FrontAlone(s);
    TakenAlone(s);
    LoadFlat(s, b, d, s.out);
    LoadFlat(s, b, d, s.pending);
    LoadFlat(s, b, d, s.inn[1..]);
    FlatFirst(s.store, s.inn);
    FlatFirst(t.store, s.inn);
    FlatOne(s.store, s.buf.value);
    FlatOne(t.store, s.buf.value);
    Shift(Flat(s.store, s.out), Bytes(d), Bytes(b), Flat(s.store, s.inn[1..]));
  }

  lemma Shift<T>(o: seq<T>, x: seq<T>, y: seq<T>, q: seq<T>)
    ensures o + [] + ((x + y) + q) == o + x + (y + q)
  {}

  lemma LoadLine(s: State, b: Buf, d: Buf)
    requires Loading(s, b, d)
    ensures var t := Load(s, b, d);
      Sound(t) && Readable(s) && Readable(t) && Line(t) == Line(s) && Unsent(t) == Unsent(s)
  {
    LoadSound(s, b, d);
    SoundReadable(s);
    SoundReadable(Load(s, b, d));
    LoadFlow(s, b, d);
  }

  lemma LoadFresh(s: State, b: Buf, d: Buf)
    requires Loading(s, b, d) && Fresh(s)
    ensures Fresh(Load(s, b, d))
  {
    FrontAlone(s);
    TakenAlone(s);
  }

  /** The buffer copied to joins the list being built. */
  ghost function Push(s: State): State
    requires s.buf.Some?
  {
    s.(out := s.out + [s.buf.value], buf := None, pl := s.pl[s.buf.value := Leaving])
  }

  lemma PushOwned(s: State)
    requires Sound(s) && s.buf.Some?
    ensures var t := Push(s); Owned(t.store, t.pl, t.made, t.out, t.busy, t.free, t.buf)
  {
    var t := Push(s);
    forall x | x in t.made ensures OwnedAt(t.store, t.pl, x, t.out, t.busy, t.free, t.buf) {
      assert OwnedAt(s.store, s.pl, x, s.out, s.busy, s.free, s.buf);
    }
  }

  lemma PushSound(s: State)
    requires Sound(s) && s.buf.Some?
    ensures Sound(Push(s))
  {
    var id, t := s.buf.value, Push(s);
    TakenAlone(s);
    assert s.store[id := s.store[id]] == s.store;
    QueueKept(s.pl, s.made, s.inn, id, Leaving);
    OutKept(s.pl, s.out, id, Leaving);
    DistinctMore(s.out, id);
    FreeKept(s.store, s.pl, s.made, s.free, id, s.store[id], Leaving);
    BusyKept(s.pl, s.made, s.busy, id, Leaving);
    PendingKept(s.store, s.pl, s.made, s.pending, id, s.store[id], Leaving);
    PushOwned(s);
    assert OutOk(t.pl, t.out);
  }

  lemma PushFresh(s: State)
    requires Sound(s) && s.buf.Some? && s.buf.value in s.store && Size(s.store[s.buf.value]) > 0 && Fresh(s)
    ensures Fresh(Push(s))
  {
    TakenAlone(s);
  }

  lemma EmptyBetween(a: seq<Byte>, b: seq<Byte>)
    ensures a + [] + b == a + b
  {}

  lemma PushFlow(s: State)
    requires s.buf.Some? && Readable(s) && Readable(Push(s))
    ensures Line(Push(s)) == Line(s) && Unsent(Push(s)) == Unsent(s)
  {
    var hand := Hand(s.buf);
    FlatParts(s.store, s.out, hand);
    EmptyBetween(Flat(s.store, s.out + hand), Flat(s.store, s.inn));
  }

  lemma PushLine(s: State)
    requires Sound(s) && s.buf.Some?
    ensures var t := Push(s); Sound(t) && Readable(s) && Readable(t) && Line(t) == Line(s) && Unsent(t) == Unsent(s)
  {
    PushSound(s);
    SoundReadable(s);
    SoundReadable(Push(s));
    PushFlow(s);
  }

  // The filter

  /** The list is handed to the filter. */
  ghost function Give(s: State): State { s.(pending := s.pending + s.out) }

  lemma GiveSound(s: State)
    requires Sound(s) && Fresh(s)
    ensures Sound(Give(s))
  {
    var l := s.pending + s.out;
    forall i, j | 0 <= i < j < |l| ensures l[i] != l[j] {
      if i < |s.pending| <= j { assert l[i] in s.pending && l[j] in s.out; }
    }
    assert PendingOk(s.store, s.pl, s.made, l);
  }

  lemma GiveLine(s: State)
    requires Sound(s) && Fresh(s)
    ensures Sound(Give(s)) && Readable(s) && Readable(Give(s)) && Unsent(Give(s)) == Unsent(s) + Flat(s.store, s.out)
  {
    GiveSound(s);
    SoundReadable(s);
    FlatParts(s.store, s.pending, s.out);
  }

  /** k bytes of the first buffer are sent, and it is let go of if there are no more. */
  ghost function Send(s: State, k: nat): State
    requires s.pending != [] && s.pending[0] in s.store
  {
    var id := s.pending[0];
    s.(store := s.store[id := Advance(s.store[id], k)],
       pending := if Ok(s.store[id]) && k == Size(s.store[id]) then s.pending[1..] else s.pending)
  }

  lemma PendingAlone(s: State)
    requires Sound(s) && s.pending != []
    ensures var id := s.pending[0];
      id in s.store && id !in s.inn && id !in s.free && id !in s.pending[1..] && s.buf != Some(id)
    ensures Distinct(s.pending[1..])
  {
    assert s.pending[0] in s.pending;
    DistinctFirst(s.pending);
  }

  lemma SendOwned(s: State, k: nat)
    requires Sound(s) && s.pending != []
    ensures var t := Send(s, k); Owned(t.store, t.pl, t.made, t.out, t.busy, t.free, t.buf)
  {
    PendingAlone(s);
    var t := Send(s, k);
    forall x | x in t.made ensures OwnedAt(t.store, t.pl, x, t.out, t.busy, t.free, t.buf) {
      assert OwnedAt(s.store, s.pl, x, s.out, s.busy, s.free, s.buf);
    }
  }

  lemma SendPending(s: State, k: nat)
    requires Sound(s) && s.pending != [] && s.pending[0] in s.store && k <= Size(s.store[s.pending[0]])
    ensures var t := Send(s, k); PendingOk(t.store, t.pl, t.made, t.pending)
  {
    var id, t := s.pending[0], Send(s, k);
    PendingAlone(s);
    AdvanceOk(s.store[id], k);
    assert PendingOk(s.store, s.pl, s.made, s.pending[1..]);
    assert s.pl[id := s.pl[id]] == s.pl;
    PendingKept(s.store, s.pl, s.made, s.pending[1..], id, t.store[id], s.pl[id]);
  }

  lemma SendSound(s: State, k: nat)
    requires Sound(s) && s.pending != [] && s.pending[0] in s.store && k <= Size(s.store[s.pending[0]])
    ensures Sound(Send(s, k))
  {
    var id, t := s.pending[0], Send(s, k);
    PendingAlone(s);
    AdvanceOk(s.store[id], k);
    assert s.pl[id := s.pl[id]] == s.pl;
    BaseKept(s, id, t.store[id], s.pl[id]);
    FreeKept(s.store, s.pl, s.made, s.free, id, t.store[id], s.pl[id]);
    SendOwned(s, k);
    SendPending(s, k);
  }

  lemma SendFlow(s: State, k: nat)
    requires Sound(s) && s.pending != [] && s.pending[0] in s.store && k <= Size(s.store[s.pending[0]])
    requires Readable(s) && Readable(Send(s, k))
    ensures Unsent(s) == Bytes(s.store[s.pending[0]])[..k] + Unsent(Send(s, k))
  {
    var id, t := s.pending[0], Send(s, k);
    var b, q := Bytes(s.store[id]), Flat(s.store, s.pending[1..]);
    PendingAlone(s);
    AdvanceOk(s.store[id], k);
    FlatFirst(s.store, s.pending);
    FlatKept(s.store, s.pending[1..], id, t.store[id]);
    SplitAt(b, q, k);
    if k < Size(s.store[id]) { FlatFirst(t.store, s.pending); }
  }

  lemma SplitAt<T>(b: seq<T>, q: seq<T>, k: nat)
    requires k <= |b|
    ensures b + q == b[..k] + (b[k..] + q) && (k == |b| ==> b[k..] + q == q)
  {}

  lemma SendLine(s: State, k: nat)
    requires Sound(s) && s.pending != [] && s.pending[0] in s.store && k <= Size(s.store[s.pending[0]])
    ensures Sound(Send(s, k)) && Readable(s) && Readable(Send(s, k))
    ensures Unsent(s) == Bytes(s.store[s.pending[0]])[..k] + Unsent(Send(s, k))
    ensures Flat(Send(s, k).store, s.inn) == Flat(s.store, s.inn)
  {
    SendSound(s, k);
    SoundReadable(s);
    SoundReadable(Send(s, k));
    PendingAlone(s);
    SendFlow(s, k);
    FlatKept(s.store, s.inn, s.pending[0], Advance(s.store[s.pending[0]], k));
  }

  // ngx_chain_update_chains

  ghost function Settled(pl: Places, made: set<Id>, out: seq<Id>): Places {
    map id | id in pl :: if id in out then (if id in made then Kept else Away) else pl[id]
  }

  /** The list goes to the end of the busy one. */
  ghost function Keep(s: State): State { s.(busy := s.busy + s.out, out := [], pl := Settled(s.pl, s.made, s.out)) }

  lemma KeepBusy(s: State)
    requires Sound(s)
    ensures BusyOk(Keep(s).pl, s.made, s.busy + s.out)
  {
    var l := s.busy + s.out;
    forall i, j | 0 <= i < j < |l| && l[i] == l[j] ensures l[i] !in s.made {
      if i < |s.busy| <= j { assert l[i] in s.busy && l[j] in s.out && s.pl[l[j]] == Leaving; }
    }
    forall id | id in l ensures id in s.pl && (id in s.made ==> Keep(s).pl[id] == Kept) {}
  }

  lemma KeepOwned(s: State)
    requires Sound(s)
    ensures var t := Keep(s); Owned(t.store, t.pl, t.made, t.out, t.busy, t.free, t.buf)
  {
    var t := Keep(s);
    forall x | x in t.made ensures OwnedAt(t.store, t.pl, x, t.out, t.busy, t.free, t.buf) {
      assert OwnedAt(s.store, s.pl, x, s.out, s.busy, s.free, s.buf);
    }
  }

  lemma KeepSound(s: State)
    requires Sound(s)
    ensures Sound(Keep(s))
  {
    var t := Keep(s);
    KeepBusy(s);
    KeepOwned(s);
    assert t.pl.Keys == s.pl.Keys;
    assert PendingOk(t.store, t.pl, t.made, t.pending);
  }

  /** An empty buffer of someone else's is dropped from the busy list. */
  ghost function Forget(s: State): State
    requires s.busy != []
  {
    s.(busy := s.busy[1..])
  }

  lemma BusyRest(pl: Places, made: set<Id>, s: seq<Id>)
    requires BusyOk(pl, made, s) && s != []
    ensures BusyOk(pl, made, s[1..]) && (s[0] in made ==> s[0] !in s[1..])
  {}

  lemma ForgetSound(s: State)
    requires Sound(s) && s.busy != [] && s.busy[0] !in s.made
    ensures Sound(Forget(s))
  {
    var t := Forget(s);
    BusyRest(s.pl, s.made, s.busy);
    forall x | x in t.made ensures OwnedAt(t.store, t.pl, x, t.out, t.busy, t.free, t.buf) {
      assert OwnedAt(s.store, s.pl, x, s.out, s.busy, s.free, s.buf);
      assert s.busy == [s.busy[0]] + s.busy[1..];
    }
  }

  function Emptied(b: Buf): Buf { b.(pos := b.start, last := b.start) }

  /** An empty copy buffer goes to the front of the free list. */
  ghost function Recycle(s: State): State
    requires s.busy != [] && s.busy[0] in s.store
  {
    var id := s.busy[0];
    s.(store := s.store[id := Emptied(s.store[id])], pl := s.pl[id := Spare], busy := s.busy[1..],
      free := [id] + s.free)
  }

  /** An empty copy buffer that is kept is nowhere else, and the filter is done with it. */
  lemma KeptAlone(s: State)
    requires Sound(s) && s.busy != [] && s.busy[0] in s.made && s.busy[0] in s.store && Size(s.store[s.busy[0]]) == 0
    ensures var id := s.busy[0];
      id !in s.inn && id !in s.out && id !in s.free && id !in s.pending && id !in s.busy[1..] && s.buf != Some(id)
    ensures Made(s.store[s.busy[0]])
  {
    var id := s.busy[0];
    assert id in s.busy && s.pl[id] == Kept;
    BusyRest(s.pl, s.made, s.busy);
    assert OwnedAt(s.store, s.pl, id, s.out, s.busy, s.free, s.buf);
  }

  lemma EmptiedOk(b: Buf)
    requires Ok(b) && Made(b) && Size(b) == 0
    ensures Ok(Emptied(b)) && Blank(Emptied(b)) && Made(Emptied(b)) && Bytes(Emptied(b)) == Bytes(b)
  {
    var c := Emptied(b);
    assert c.mem[c.pos..c.last] == [] == b.mem[b.pos..b.last];
  }

  lemma RecycleOwned(s: State)
    requires Sound(s) && s.busy != [] && s.busy[0] in s.made && s.busy[0] in s.store
      && Made(Emptied(s.store[s.busy[0]]))
    ensures var t := Recycle(s); Owned(t.store, t.pl, t.made, t.out, t.busy, t.free, t.buf)
  {
    var t := Recycle(s);
    forall x | x in t.made ensures OwnedAt(t.store, t.pl, x, t.out, t.busy, t.free, t.buf) {
      assert OwnedAt(s.store, s.pl, x, s.out, s.busy, s.free, s.buf);
      assert s.busy == [s.busy[0]] + s.busy[1..];
    }
  }

  lemma FreeMore(st: Store, pl: Places, made: set<Id>, s: seq<Id>, id: Id, b: Buf)
    requires FreeOk(st, pl, made, s) && id !in s && id in made && Blank(b)
    ensures FreeOk(st[id := b], pl[id := Spare], made, [id] + s)
  {}

  lemma RecycleSound(s: State)
    requires Sound(s) && s.busy != [] && s.busy[0] in s.made && s.busy[0] in s.store && Size(s.store[s.busy[0]]) == 0
    ensures Sound(Recycle(s))
  {
    var id := s.busy[0];
    var b := Emptied(s.store[id]);
    KeptAlone(s);
    EmptiedOk(s.store[id]);
    BaseKept(s, id, b, Spare);
    QueueKept(s.pl, s.made, s.inn, id, Spare);
    OutKept(s.pl, s.out, id, Spare);
    FreeMore(s.store, s.pl, s.made, s.free, id, b);
    BusyRest(s.pl, s.made, s.busy);
    BusyKept(s.pl, s.made, s.busy[1..], id, Spare);
    PendingKept(s.store, s.pl, s.made, s.pending, id, b, Spare);
    RecycleOwned(s);
  }

  lemma RecycleLine(s: State)
    requires Sound(s) && s.busy != [] && s.busy[0] in s.made && s.busy[0] in s.store && Size(s.store[s.busy[0]]) == 0
    ensures var t := Recycle(s);
      Sound(t) && Readable(s) && Readable(t) && Unsent(t) == Unsent(s) && Flat(t.store, t.inn) == Flat(s.store, s.inn)
  {
    RecycleSound(s);
    SoundReadable(s);
    SoundReadable(Recycle(s));
    KeptAlone(s);
    FlatKept(s.store, s.pending, s.busy[0], Emptied(s.store[s.busy[0]]));
    FlatKept(s.store, s.inn, s.busy[0], Emptied(s.store[s.busy[0]]));
  }

  // New input

  /** Buffers someone may hand in: not made for copying, and not waiting or being sent already. */
  ghost predicate Offered(s: State, more: seq<Id>) {
    Distinct(more)
      && forall id :: id in more ==> id in s.store && id !in s.made && id !in s.inn && id !in s.out && id !in s.pending
  }

  ghost function Enqueue(s: State, more: seq<Id>): State {
    s.(inn := s.inn + more, pl := map id | id in s.pl :: if id in more then Queued else s.pl[id])
  }

  lemma EnqueueQueue(s: State, more: seq<Id>)
    requires Sound(s) && Offered(s, more)
    ensures var t := Enqueue(s, more); QueueOk(t.pl, t.made, t.inn)
  {
    var l := s.inn + more;
    forall i, j | 0 <= i < j < |l| ensures l[i] != l[j] {
      if i < |s.inn| <= j { assert l[i] in s.inn && l[j] in more; }
    }
  }

  lemma EnqueueSound(s: State, more: seq<Id>)
    requires Sound(s) && Offered(s, more)
    ensures Sound(Enqueue(s, more))
  {
    var t := Enqueue(s, more);
    EnqueueQueue(s, more);
    assert t.pl.Keys == s.pl.Keys;
    forall x | x in t.made ensures OwnedAt(t.store, t.pl, x, t.out, t.busy, t.free, t.buf) {
      assert OwnedAt(s.store, s.pl, x, s.out, s.busy, s.free, s.buf);
    }
    assert PendingOk(t.store, t.pl, t.made, t.pending);
  }

  lemma EnqueueFlow(s: State, more: seq<Id>, t: State)
    requires t == Enqueue(s, more) && Readable(s) && Readable(t) && Known(s.store, more)
    ensures Line(t) == Line(s) + Flat(s.store, more) && Unsent(t) == Unsent(s)
  {
    FlatParts(s.store, s.inn, more);
    Join3(Flat(s.store, s.out) + Flat(s.store, Hand(s.buf)), Flat(s.store, s.inn), Flat(s.store, more));
  }

  lemma EnqueueLine(s: State, more: seq<Id>)
    requires Sound(s) && Offered(s, more) && Known(s.store, more)
    ensures var t := Enqueue(s, more); Sound(t) && Readable(s) && Readable(t)
    ensures Line(Enqueue(s, more)) == Line(s) + Flat(s.store, more) && Unsent(Enqueue(s, more)) == Unsent(s)
  {
    EnqueueSound(s, more);
    SoundReadable(s);
    SoundReadable(Enqueue(s, more));
    EnqueueFlow(s, more, Enqueue(s, more));
  }

  /** A caller's new buffer. */
  ghost function Lend(s: State, id: Id, b: Buf): State { s.(store := s.store[id := b], pl := s.pl[id := Away]) }

  lemma LendSound(s: State, id: Id, b: Buf)
    requires Sound(s) && id !in s.store && Ok(b) && b.tag != s.tag
    ensures Sound(Lend(s, id, b))
  {
    var t := Lend(s, id, b);
    forall x | x in t.made ensures OwnedAt(t.store, t.pl, x, t.out, t.busy, t.free, t.buf) {
      assert OwnedAt(s.store, s.pl, x, s.out, s.busy, s.free, s.buf);
    }
    assert PendingOk(t.store, t.pl, t.made, t.pending);
  }

  lemma LendLine(s: State, id: Id, b: Buf)
    requires Sound(s) && id !in s.store && Ok(b) && b.tag != s.tag
    ensures var t := Lend(s, id, b);
      Sound(t) && Readable(s) && Readable(t) && Line(t) == Line(s) && Unsent(t) == Unsent(s)
  {
    LendSound(s, id, b);
    SoundReadable(s);
    SoundReadable(Lend(s, id, b));
    FlatKept(s.store, s.out, id, b);
    FlatKept(s.store, s.inn, id, b);
    FlatKept(s.store, s.pending, id, b);
    FlatKept(s.store, Hand(s.buf), id, b);
  }

  /** The list is handed over without being kept: it holds no copy buffer. */
  ghost function Loose(s: State): State { s.(out := [], pl := Settled(s.pl, s.made, s.out)) }

  lemma LooseSound(s: State)
    requires Sound(s) && forall id :: id in s.out ==> id !in s.made
    ensures Sound(Loose(s))
  {
    var t := Loose(s);
    assert t.pl.Keys == s.pl.Keys;
    forall x | x in t.made ensures OwnedAt(t.store, t.pl, x, t.out, t.busy, t.free, t.buf) {
      assert OwnedAt(s.store, s.pl, x, s.out, s.busy, s.free, s.buf);
    }
    assert PendingOk(t.store, t.pl, t.made, t.pending);
  }

  // How much is left to do

  ghost function Bulk(st: Store, s: seq<Id>): nat {
    if s == [] then 0 else (if s[0] in st && Ok(st[s[0]]) then Size(st[s[0]]) else 0) + 1 + Bulk(st, s[1..])
  }

  lemma {:induction false} BulkKept(st: Store, s: seq<Id>, id: Id, b: Buf)
    requires id !in s
    ensures Bulk(st[id := b], s) == Bulk(st, s)
  {
    if s != [] { BulkKept(st, s[1..], id, b); }
  }
}
