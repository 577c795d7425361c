/** The output chain: ngx_output_chain.c, and ngx_chain_update_chains of ngx_buf.c. */
module OutChain {
  import opened OutBuf
  import opened OutState

  datatype Code = Ok | Again | Error | Done

  /** How the filter answers a call, and how many bytes it sends during it. */
  datatype Reply = Reply(code: Code, bytes: nat)

  datatype Signal = Go | Stop | Fail

  /** Everything handed to the filter and everything still here is all that came in; what the filter sent and what it
      keeps is all it was handed. */
  ghost predicate Flow(s: State, input: seq<Byte>, handed: seq<Byte>, sent: seq<Byte>) {
    Readable(s) && handed + Line(s) == input && sent + Unsent(s) == handed
  }

  /** The same between a call of the filter and ngx_chain_update_chains, when the list is the filter's. */
  ghost predicate FlowAfter(s: State, input: seq<Byte>, handed: seq<Byte>, sent: seq<Byte>) {
    Readable(s) && handed + Flat(s.store, s.inn) == input && sent + Unsent(s) == handed
  }

  /** Numbers and streams kept beside the lists. */
  datatype Books = Books(count: nat, num: nat, next: Id, input: seq<Byte>, handed: seq<Byte>, sent: seq<Byte>)

  ghost predicate Counted(s: State, k: Books) {
    |s.made| == k.count <= k.num && forall id :: id in s.store ==> id < k.next
  }

  /** The invariants are spelled out only where a proof asks for it by naming `Open`. */
  ghost predicate Open(s: State, k: int) { true }

  /** What holds while a list is being built. */
  ghost predicate Good(s: State, k: Books) {
    forall o :: Open(s, o) ==> Sound(s) && Fresh(s) && Counted(s, k) && Flow(s, k.input, k.handed, k.sent)
  }

  /** What holds between a call of the filter and ngx_chain_update_chains. */
  ghost predicate GoodAfter(s: State, k: Books) {
    forall o :: Open(s, o) ==> Sound(s) && s.buf == None && Counted(s, k) && FlowAfter(s, k.input, k.handed, k.sent)
  }

  lemma GoodParts(s: State, k: Books)
    requires Good(s, k)
    ensures Sound(s) && Fresh(s) && Counted(s, k) && Flow(s, k.input, k.handed, k.sent)
  {
    assert Open(s, 0);
  }

  lemma AfterParts(s: State, k: Books)
    requires GoodAfter(s, k)
    ensures Sound(s) && s.buf == None && Counted(s, k) && FlowAfter(s, k.input, k.handed, k.sent)
  {
    assert Open(s, 0);
  }

  lemma Assoc<T>(a: seq<T>, b: seq<T>, c: seq<T>)
    ensures a + (b + c) == (a + b) + c
  {}

  lemma PopGood(s: State, k: Books, b: Buf, p: Place)
    requires Good(s, k) && Popping(s, b, p)
    ensures Good(Pop(s, b, p), k)
  {
    assert Open(s, 0);
    PopLine(s, b, p);
    PopFresh(s, b, p);
  }

  lemma PickGood(s: State, k: Books)
    requires Good(s, k) && s.free != [] && s.buf == None
    ensures Good(Pick(s), k) && s.free[0] in s.store && Blank(s.store[s.free[0]])
  {
    assert Open(s, 0);
    PickLine(s);
    FreeAlone(s);
  }

  lemma NewCounted(s: State, k: Books, b: Buf)
    requires Counted(s, k) && s.made <= s.store.Keys && k.count < k.num
    ensures Counted(New(s, k.next, b), k.(count := k.count + 1, next := k.next + 1)) && k.next !in s.store
  {
    assert k.next !in s.made;
  }

  ghost predicate Whole(b: Buf, k: int) { true }

  /** A buffer fit for copying to. */
  ghost predicate Vacant(b: Buf, tag: nat) {
    forall o :: Whole(b, o) ==> OutBuf.Ok(b) && Made(b) && Blank(b) && b.tag == tag
  }

  lemma NewGood(s: State, k: Books, b: Buf)
    requires Good(s, k) && s.buf == None && Vacant(b, s.tag) && k.count < k.num
    ensures Good(New(s, k.next, b), k.(count := k.count + 1, next := k.next + 1)) && k.next !in s.inn
      && k.next !in s.store
  {
    assert Whole(b, 0);
    GoodParts(s, k);
    NewCounted(s, k, b);
    NewLine(s, k.next, b);
  }

  lemma LoadGood(s: State, k: Books, b: Buf, d: Buf)
    requires Good(s, k) && Loading(s, b, d)
    ensures Good(Load(s, b, d), k)
  {
    assert Open(s, 0);
    LoadLine(s, b, d);
    LoadFresh(s, b, d);
  }

  lemma PushGood(s: State, k: Books)
    requires Good(s, k) && s.buf.Some? && s.buf.value in s.store && OutBuf.Ok(s.store[s.buf.value])
      && Size(s.store[s.buf.value]) > 0
    ensures Good(Push(s), k)
  {
    assert Open(s, 0);
    PushLine(s);
    PushFresh(s);
  }

  lemma NoneBetween<T>(a: seq<T>, b: seq<T>)
    ensures a + [] + b == a + b
  {}

  lemma GiveFlow(s: State, k: Books)
    requires Readable(s) && s.buf == None && Readable(Give(s)) && Unsent(Give(s)) == Unsent(s) + Flat(s.store, s.out)
    requires Flow(s, k.input, k.handed, k.sent)
    ensures FlowAfter(Give(s), k.input, k.handed + Flat(s.store, s.out), k.sent)
  {
    var o, q := Flat(s.store, s.out), Flat(s.store, s.inn);
    NoneBetween(o, q);
    Assoc(k.handed, o, q);
    Assoc(k.sent, Unsent(s), o);
  }

  lemma GiveGood(s: State, k: Books)
    requires Good(s, k) && s.buf == None && Readable(s)
    ensures GoodAfter(Give(s), k.(handed := k.handed + Flat(s.store, s.out)))
  {
    GoodParts(s, k);
    GiveLine(s);
    GiveFlow(s, k);
  }

  lemma SendGood(s: State, k: Books, n: nat)
    requires GoodAfter(s, k) && s.pending != [] && s.pending[0] in s.store && OutBuf.Ok(s.store[s.pending[0]])
      && n <= Size(s.store[s.pending[0]])
    ensures GoodAfter(Send(s, n), k.(sent := k.sent + Bytes(s.store[s.pending[0]])[..n]))
  {
    assert Open(s, 0);
    SendLine(s, n);
    var x, u := Bytes(s.store[s.pending[0]])[..n], Unsent(Send(s, n));
    assert k.sent + (x + u) == (k.sent + x) + u;
  }

  lemma KeepGood(s: State, k: Books)
    requires GoodAfter(s, k)
    ensures GoodAfter(Keep(s), k)
  {
    assert Open(s, 0);
    KeepSound(s);
    SoundReadable(Keep(s));
  }

  lemma ForgetGood(s: State, k: Books)
    requires GoodAfter(s, k) && s.busy != [] && s.busy[0] !in s.made
    ensures GoodAfter(Forget(s), k)
  {
    assert Open(s, 0);
    ForgetSound(s);
    SoundReadable(Forget(s));
  }

  lemma RecycleGood(s: State, k: Books)
    requires GoodAfter(s, k) && s.busy != [] && s.busy[0] in s.made && s.busy[0] in s.store
    requires OutBuf.Ok(s.store[s.busy[0]]) && Size(s.store[s.busy[0]]) == 0
    ensures GoodAfter(Recycle(s), k)
  {
    AfterParts(s, k);
    RecycleLine(s);
    var t := Recycle(s);
    assert t.buf == None && Counted(t, k) && FlowAfter(t, k.input, k.handed, k.sent);
  }

  lemma EnqueueGood(s: State, k: Books, more: seq<Id>)
    requires Good(s, k) && Offered(s, more) && Known(s.store, more)
    ensures Good(Enqueue(s, more), k.(input := k.input + Flat(s.store, more)))
  {
    GoodParts(s, k);
    EnqueueLine(s, more);
    Assoc(k.handed, Line(s), Flat(s.store, more));
    EnqueueFresh(s, more);
  }

  lemma EnqueueFresh(s: State, more: seq<Id>)
    requires Fresh(s)
    ensures Fresh(Enqueue(s, more))
  {}

  /** With no list being built the two invariants are the same. */
  lemma Between(s: State, k: Books)
    requires s.out == [] && s.buf == None
    ensures Good(s, k) <==> GoodAfter(s, k)
  {
    assert Open(s, 0);
    if Good(s, k) {
      assert [] + [] + Flat(s.store, s.inn) == Flat(s.store, s.inn);
    }
    if GoodAfter(s, k) {
      assert [] + [] + Flat(s.store, s.inn) == Flat(s.store, s.inn);
    }
  }

  lemma FreeApart(s: State)
    requires Sound(s)
    ensures forall id :: id in s.free ==> id in s.store && Blank(s.store[id]) && id !in s.pending
  {}

  lemma LendGood(s: State, k: Books, b: Buf)
    requires Good(s, k) && OutBuf.Ok(b) && b.tag != s.tag
    ensures Good(Lend(s, k.next, b), k.(next := k.next + 1)) && k.next !in s.store
  {
    GoodParts(s, k);
    LendCounted(s, k, b);
    LendFresh(s, k.next, b);
    LendLine(s, k.next, b);
  }

  lemma LendCounted(s: State, k: Books, b: Buf)
    requires Counted(s, k)
    ensures Counted(Lend(s, k.next, b), k.(next := k.next + 1)) && k.next !in s.store
  {}

  lemma LendFresh(s: State, id: Id, b: Buf)
    requires Fresh(s) && id !in s.store
    ensures Fresh(Lend(s, id, b))
  {}

  lemma LooseGood(s: State, k: Books)
    requires GoodAfter(s, k) && forall id :: id in s.out ==> id !in s.made
    ensures GoodAfter(Loose(s), k)
  {
    AfterParts(s, k);
    LooseSound(s);
    SoundReadable(Loose(s));
  }

  /** What is known of the first buffer of the queue. */
  lemma FrontInfo(s: State, k: Books)
    requires Good(s, k) && s.inn != []
    ensures s.inn[0] in s.store && OutBuf.Ok(s.store[s.inn[0]]) && s.inn[0] !in s.inn[1..] && s.inn[0] !in s.made
      && s.inn[0] !in s.out
    ensures s.inn[0] !in s.pending
  {
    GoodParts(s, k);
    FrontAlone(s);
  }

  lemma PopOk(s: State, k: Books, b: Buf, p: Place)
    requires Good(s, k) && s.inn != [] && s.inn[0] in s.store && OutBuf.Ok(s.store[s.inn[0]]) && OutBuf.Ok(b)
    requires b.tag == s.store[s.inn[0]].tag && p in {Queued, Leaving, Away}
    requires Bytes(b) == Bytes(s.store[s.inn[0]]) && (p == Away ==> Bytes(b) == []) && (p == Leaving ==> s.buf == None)
    ensures Good(Pop(s, b, p), k)
  {
    GoodParts(s, k);
    PopGood(s, k, b, p);
  }

  lemma LoadOk(s: State, k: Books, b: Buf, d: Buf)
    requires Good(s, k) && s.inn != [] && s.buf.Some? && s.inn[0] in s.store && s.buf.value in s.store
      && OutBuf.Ok(s.store[s.inn[0]])
    requires OutBuf.Ok(b) && b.tag == s.store[s.inn[0]].tag && OutBuf.Ok(d) && Made(d) && d.tag == s.tag
    requires Blank(s.store[s.buf.value]) && Bytes(s.store[s.inn[0]]) == Bytes(d) + Bytes(b)
    ensures Good(Load(s, b, d), k) && s.inn[0] != s.buf.value && s.buf.value !in s.inn && s.buf.value !in s.pending
  {
    GoodParts(s, k);
    TakenAlone(s);
    LoadGood(s, k, b, d);
  }

  lemma TakenInfo(s: State, k: Books)
    requires Good(s, k) && s.buf.Some?
    ensures s.buf.value in s.store && OutBuf.Ok(s.store[s.buf.value]) && s.store[s.buf.value].tag == s.tag
    ensures s.buf.value !in s.inn && s.buf.value !in s.pending && s.buf.value !in s.busy && s.buf.value !in s.out
  {
    GoodParts(s, k);
    TakenAlone(s);
  }

  lemma OfferedFirst(s: State, more: seq<Id>)
    requires Offered(s, more) && more != []
    ensures Offered(s, [more[0]]) && Offered(Enqueue(s, [more[0]]), more[1..])
  {
    DistinctFirst(more);
  }

  lemma PendingInfo(s: State, k: Books)
    requires GoodAfter(s, k) && s.pending != []
    ensures s.pending[0] in s.store && OutBuf.Ok(s.store[s.pending[0]]) && s.pending[0] !in s.inn
  {
    AfterParts(s, k);
    PendingAlone(s);
  }

  lemma BusyInfo(s: State, k: Books)
    requires GoodAfter(s, k) && s.busy != []
    ensures s.busy[0] in s.store && OutBuf.Ok(s.store[s.busy[0]])
      && (s.busy[0] in s.made <==> s.store[s.busy[0]].tag == s.tag)
    ensures s.busy[0] in s.made ==> s.busy[0] !in s.inn
  {
    AfterParts(s, k);
    SoundReadable(s);
  }

  /** ngx_output_chain.c:389-418: the size of a new buffer, and whether it may be recycled. */
  function BufSize(front: Buf, bsize: nat, size: nat, num: nat): (r: (nat, bool))
    requires bsize > 0 && size > 0
    ensures 0 < r.0 && (r.0 <= size || (num == 1 && r.0 < size + size / 4))
  {
    if front.lastInChain && bsize < size then (bsize, false)
    else if front.lastInChain && num == 1 && bsize < size + size / 4 then (bsize, false)
    else (size, true)
  }

  /** A new buffer takes all of the front buffer exactly if that is small enough, or the last and little too large. */
  lemma TakesAll(front: Buf, bsize: nat, size: nat, num: nat)
    requires bsize > 0 && size > 0
    ensures bsize <= BufSize(front, bsize, size, num).0 <==>
      bsize <= size || (front.lastInChain && num == 1 && bsize < size + size / 4)
    ensures front.lastInChain && bsize < size ==> BufSize(front, bsize, size, num).0 == bsize
    ensures BufSize(front, bsize, size, num).1 <==> BufSize(front, bsize, size, num) == (size, true)
  {}

  function NewBuf(n: nat, tag: nat, recycled: bool): Buf {
    Buf(seq(n, i => 0), 0, 0, 0, n, tag, true, false, false, recycled, false, [], 0, 0, false, false, false, false)
  }

  /** A new buffer is empty and has no marks. */
  lemma NewBufOk(n: nat, tag: nat, recycled: bool)
    requires n > 0
    ensures var b := NewBuf(n, tag, recycled); Vacant(b, tag) && Blank(b) && !b.sync && MarksOf(b) == NO_MARKS
  {}

  // What the filter is given

  /** The buffers that are in no memory and no file and carry a mark. */
  ghost function SpecialIds(st: Store): set<Id> {
    set id | id in st && Bare(st[id]) && (st[id].flush || st[id].lastBuf || st[id].sync)
  }

  predicate Bare(b: Buf) { !b.temporary && !b.memory && !b.mmap && !b.inFile }

  lemma SpecialIs(st: Store, id: Id)
    requires id in st
    ensures id in SpecialIds(st) <==> Special(st[id])
  {}

  lemma SpecialSet(st: Store, id: Id, b: Buf)
    requires if id in st then Special(b) <==> Special(st[id]) else !Special(b)
    ensures SpecialIds(st[id := b]) == SpecialIds(st)
  {
    var st' := st[id := b];
    forall x ensures x in SpecialIds(st') <==> x in SpecialIds(st) {
      if x in st { SpecialIs(st, x); }
      if x in st' { SpecialIs(st', x); }
    }
  }

  ghost function IfAmong(those: set<Id>, id: Id): seq<Id> { if id in those then [id] else [] }

  /** Those of a list that are in a set, in their order. */
  ghost function Among(those: set<Id>, ids: seq<Id>): seq<Id> {
    if ids == [] then [] else IfAmong(those, ids[0]) + Among(those, ids[1..])
  }

  lemma AmongOne(those: set<Id>, id: Id)
    ensures Among(those, [id]) == IfAmong(those, id)
  {
    assert [id][1..] == [];
    assert IfAmong(those, id) + [] == IfAmong(those, id);
  }

  lemma {:induction false} AmongParts(those: set<Id>, a: seq<Id>, b: seq<Id>)
    ensures Among(those, a + b) == Among(those, a) + Among(those, b)
  {
    if a == [] {
      assert a + b == b;
      assert [] + Among(those, b) == Among(those, b);
    } else {
      assert (a + b)[1..] == a[1..] + b && (a + b)[0] == a[0];
      AmongParts(those, a[1..], b);
      Assoc(IfAmong(those, a[0]), Among(those, a[1..]), Among(those, b));
    }
  }

  /** The first of the queue moves to the end of the list. */
  lemma AmongMoved(those: set<Id>, out: seq<Id>, inn: seq<Id>)
    requires inn != []
    ensures Among(those, out + [inn[0]]) + Among(those, inn[1..]) == Among(those, out) + Among(those, inn)
  {
    AmongParts(those, out, [inn[0]]);
    AmongOne(those, inn[0]);
    Assoc(Among(those, out), IfAmong(those, inn[0]), Among(those, inn[1..]));
  }

  lemma OnlyOne(those: set<Id>, shown: seq<Id>, inn: seq<Id>, more: seq<Id>)
    requires |more| == 1 && inn == []
    ensures more == [more[0]]
    ensures Among(those, shown + [more[0]]) + Among(those, inn) == Among(those, shown) + Among(those, inn + more)
  {
    AmongMoved(those, shown, more);
    assert more[1..] == inn && inn + more == more;
  }

  lemma AmongDropped(those: set<Id>, inn: seq<Id>)
    requires inn != [] && inn[0] !in those
    ensures Among(those, inn[1..]) == Among(those, inn)
  {
    assert [] + Among(those, inn[1..]) == Among(those, inn[1..]);
  }

  lemma AmongAdded(those: set<Id>, out: seq<Id>, id: Id)
    requires id !in those
    ensures Among(those, out + [id]) == Among(those, out)
  {
    AmongParts(those, out, [id]);
    AmongOne(those, id);
    assert Among(those, out) + [] == Among(those, out);
  }

  /** The buffers of a list are what they were. */
  ghost predicate Alike(st: Store, st': Store, ids: seq<Id>) {
    forall id :: id in ids && id in st ==> id in st' && st'[id] == st[id]
  }

  class OutputChain {
    const tag: nat
    const num: nat
    const size: nat
    const sendfile: bool
    const needInMemory: bool
    const needInTemp: bool

    var store: Store
    var next: Id
    var inn: seq<Id>
    var busy: seq<Id>
    var free: seq<Id>
    var buf: Option<Id>
    var count: nat

    /** The filter: what it keeps, and how it will answer. */
    var pending: seq<Id>
    var script: seq<Reply>

    /** Which of the calls that may fail do. */
    var faults: seq<bool>

    ghost var pl: Places
    ghost var made: set<Id>
    ghost var input: seq<Byte>
    ghost var handed: seq<Byte>
    ghost var sent: seq<Byte>
    /** The buffers the filter was given, and how often it was called. */
    ghost var shown: seq<Id>
    ghost var calls: nat
    /** What it answered last, and whether any call has failed. */
    ghost var answer: Code
    ghost var failed: bool

    ghost function View(out: seq<Id>): State
      reads this
    {
      State(store, tag, inn, out, busy, free, buf, pending, pl, made)
    }

    ghost function Notes(): Books
      reads this
    {
      Books(count, num, next, input, handed, sent)
    }

    ghost predicate Valid(out: seq<Id>)
      reads this
    {
      size > 0 && Good(View(out), Notes())
    }

    constructor (tag: nat, num: nat, size: nat, sendfile: bool, needInMemory: bool, needInTemp: bool,
        script: seq<Reply>, faults: seq<bool>)
      requires size > 0
      ensures Valid([]) && buf == None && store == map[] && input == [] && this.script == script
        && this.faults == faults && shown == [] && inn == [] && this.num == num && this.tag == tag && this.size == size
        && this.sendfile == sendfile && this.needInMemory == needInMemory && this.needInTemp == needInTemp && !failed
    {
      this.tag, this.num, this.size := tag, num, size;
      this.sendfile, this.needInMemory, this.needInTemp := sendfile, needInMemory, needInTemp;
      this.script, this.faults := script, faults;
      store, next, inn, busy, free, buf, count, pending := map[], 0, [], [], [], None, 0, [];
      pl, made, input, handed, sent, shown, calls := map[], {}, [], [], [], [], 0;
      answer, failed := Ok, false;
    }

    predicate AsIs(b: Buf) {
      if Special(b) then true
      else if !sendfile && !InMemory(b) then false
      else if needInMemory && !InMemory(b) then false
      else !(needInTemp && (b.memory || b.mmap))
    }

    /** What ngx_output_chain_as_is leaves of the buffer. */
    function Stripped(b: Buf): Buf { if !Special(b) && !sendfile && InMemory(b) then b.(inFile := false) else b }

    lemma StrippedOk(b: Buf)
      requires OutBuf.Ok(b)
      ensures OutBuf.Ok(Stripped(b)) && Bytes(Stripped(b)) == Bytes(b) && Stripped(b).tag == b.tag
      ensures (Special(Stripped(b)) <==> Special(b)) && (AsIs(b) ==> FilterFit(Stripped(b)))
      ensures AsIs(Stripped(b)) <==> AsIs(b)
    {}

    /**
     * What the filter may be given: a mark without bytes; or bytes in memory if it needs them there or does not send
     * files, in the file only if it does, and in memory that may be written to if it needs that.
     */
    predicate FilterFit(b: Buf) {
      || Special(b)
      || (&& (needInMemory || !sendfile ==> InMemory(b)) && (!sendfile ==> !b.inFile)
          && (needInTemp ==> !b.memory && !b.mmap))
    }

    ghost predicate FitAll(ids: seq<Id>)
      reads this
    {
      forall id :: id in ids ==> id in store && FilterFit(store[id])
    }

    /** One call that may fail. */
    method Fault() returns (f: bool)
      modifies this`faults, this`failed
      ensures f == (old(faults) != [] && old(faults)[0]) && faults == old(if faults == [] then [] else faults[1..])
      ensures failed == (old(failed) || f)
    {
      f := false;
      if faults != [] {
        f := faults[0];
        faults := faults[1..];
      }
      failed := failed || f;
    }

    /** A caller's buffer, not carrying the tag of this chain. */
    method Provide(b: Buf) returns (id: Id)
      requires Valid([]) && OutBuf.Ok(b) && b.tag != tag
      modifies this`store, this`next, this`pl
      ensures Valid([]) && id == old(next) && store == old(store)[id := b] && id !in old(store)
    {
      ghost var s := Lend(View([]), next, b);
      LendGood(View([]), Notes(), b);
      id := next;
      store := store[id := b];
      pl := pl[id := Away];
      next := next + 1;
      assert View([]) == s;
    }

    /** The first buffer of the queue stays there with the same bytes. */
    method Amend(out: seq<Id>, b: Buf)
      requires Valid(out) && inn != [] && inn[0] in store && OutBuf.Ok(store[inn[0]]) && OutBuf.Ok(b)
      requires b.tag == store[inn[0]].tag && Bytes(b) == Bytes(store[inn[0]])
        && (Special(b) <==> Special(store[inn[0]]))
      modifies this`store, this`pl
      ensures Valid(out) && store == old(store)[inn[0] := b] && SpecialIds(store) == old(SpecialIds(store))
    {
      SpecialSet(store, inn[0], b);
      ghost var s := Pop(View(out), b, Queued);
      PopOk(View(out), Notes(), b, Queued);
      store := store[inn[0] := b];
      pl := pl[inn[0] := Queued];
      assert View(out) == s;
    }

    /** An empty buffer leaves the queue. */
    method Discard(out: seq<Id>)
      requires Valid(out) && inn != [] && inn[0] in store && OutBuf.Ok(store[inn[0]]) && Size(store[inn[0]]) == 0
      modifies this`store, this`inn, this`pl
      ensures Valid(out) && store == old(store) && inn == old(inn)[1..]
    {
      ghost var s, b := View(out), store[inn[0]];
      PopOk(s, Notes(), b, Away);
      Unchanged(store, inn[0]);
      pl := pl[inn[0] := Away];
      inn := inn[1..];
      assert View(out) == Pop(s, b, Away);
    }

    lemma Unchanged<K, V>(m: map<K, V>, k: K)
      requires k in m
      ensures m[k := m[k]] == m
    {}

    /** The first buffer of the queue moves to the list being built. */
    method Ship(out: seq<Id>) returns (out': seq<Id>)
      requires Valid(out) && inn != [] && inn[0] in store && OutBuf.Ok(store[inn[0]]) && buf == None
      modifies this`store, this`inn, this`pl
      ensures Valid(out') && store == old(store) && inn == old(inn)[1..] && out' == out + [old(inn)[0]]
    {
      ghost var s, b := View(out), store[inn[0]];
      PopOk(s, Notes(), b, Leaving);
      Unchanged(store, inn[0]);
      pl := pl[inn[0] := Leaving];
      out' := out + [inn[0]];
      inn := inn[1..];
      assert View(out') == Pop(s, b, Leaving);
    }

    /** A free buffer is taken to copy to. */
    method TakeFree(out: seq<Id>)
      requires Valid(out) && free != [] && buf == None
      modifies this`free, this`buf, this`pl
      ensures Valid(out) && buf == Some(old(free)[0]) && buf.value in store && Blank(store[buf.value])
    {
      ghost var s := Pick(View(out));
      PickGood(View(out), Notes());
      buf := Some(free[0]);
      pl := pl[free[0] := Taken];
      free := free[1..];
      assert View(out) == s;
    }

    method Enter(b: Buf)
      modifies this`store, this`buf, this`count, this`next
      ensures store == old(store)[old(next) := b] && buf == Some(old(next)) && count == old(count) + 1
        && next == old(next) + 1
    {
      store, buf, count, next := store[next := b], Some(next), count + 1, next + 1;
    }

    ghost method Note(places: Places, ours: set<Id>)
      modifies this`pl, this`made
      ensures pl == places && made == ours
    {
      pl, made := places, ours;
    }

    ghost method Mark(places: Places)
      modifies this`pl
      ensures pl == places
    {
      pl := places;
    }

    method Install(out: seq<Id>, b: Buf)
      requires Valid(out) && buf == None && count < num && Vacant(b, tag)
      modifies this`store, this`next, this`buf, this`count, this`pl, this`made
      ensures Valid(out) && buf == Some(old(next)) && count == old(count) + 1 && store == old(store)[old(next) := b]
        && old(next) !in old(inn) && old(next) !in old(store)
    {
      ghost var s, k := New(View(out), next, b), Notes().(count := count + 1, next := next + 1);
      NewGood(View(out), Notes(), b);
      Enter(b);
      Note(s.pl, s.made);
      assert View(out) == s && Notes() == k;
    }

    /** ngx_output_chain_get_buf, once there is memory. */
    method MakeBuf(out: seq<Id>, bsize: nat, front: Buf)
      requires Valid(out) && buf == None && count < num && bsize > 0
      modifies this`store, this`next, this`buf, this`count, this`pl, this`made
      ensures Valid(out) && buf == Some(old(next)) && count == old(count) + 1 && old(next) !in old(inn)
        && old(next) !in old(store)
      ensures store == old(store)[old(next) := NewBuf(BufSize(front, bsize, size, num).0, tag,
        BufSize(front, bsize, size, num).1)]
      ensures Blank(store[buf.value])
    {
      var (n, recycled) := BufSize(front, bsize, size, num);
      NewBufOk(n, tag, recycled);
      Install(out, NewBuf(n, tag, recycled));
    }

    /** Whether a buffer to copy to could be had: a free one, or a new one as long as there are not too many. */
    method Obtain(out: seq<Id>) returns (sig: Signal)
      requires Valid(out) && buf == None && inn != [] && inn[0] in store && OutBuf.Ok(store[inn[0]])
        && Size(store[inn[0]]) > 0
      modifies this`store, this`next, this`buf, this`count, this`free, this`faults, this`failed, this`pl, this`made
      ensures Valid(out) && inn[0] in store && store[inn[0]] == old(store)[inn[0]]
        && Bulk(store, inn) == old(Bulk(store, inn))
      ensures sig == Go ==> buf.Some? && buf.value in store && Blank(store[buf.value])
      ensures sig != Go ==> buf == None && store == old(store)
      ensures sig == Stop <==> old(free) == [] && (out != [] || old(count) == num)
      ensures sig == Stop ==> free == [] && count == old(count)
      ensures old(free) != [] ==> sig == Go && buf == Some(old(free)[0]) && count == old(count) && store == old(store)
      ensures sig == Go && old(free) == [] ==> count == old(count) + 1 && buf.value !in old(store)
      ensures failed == (old(failed) || sig == Fail)
      ensures Alike(old(store), store, out) && SpecialIds(store) == old(SpecialIds(store))
    {
      if free != [] {
        TakeFree(out);
        return Go;
      }
      if out != [] || count == num {
        return Stop;
      }
      var fault := Fault();
      if fault {
        return Fail;
      }
      CountBelow(out);
      BulkKept(store, inn, next,
        NewBuf(BufSize(store[inn[0]], Size(store[inn[0]]), size, num).0, tag,
        BufSize(store[inn[0]], Size(store[inn[0]]), size, num).1));
      ghost var front, store0 := store[inn[0]], store;
      ghost var new1 := NewBuf(BufSize(front, Size(front), size, num).0, tag, BufSize(front, Size(front), size, num).1);
      MakeBuf(out, Size(store[inn[0]]), store[inn[0]]);
      SpecialSet(store0, buf.value, new1);
      return Go;
    }

    lemma CountBelow(out: seq<Id>)
      requires Valid(out) && count != num
      ensures count < num && next !in inn
    {
      GoodParts(View(out), Notes());
    }

    /** The bytes go from one buffer to the other. */
    method Transfer(out: seq<Id>, b: Buf, d: Buf)
      requires Valid(out) && inn != [] && buf.Some? && inn[0] in store && buf.value in store && OutBuf.Ok(store[inn[0]])
      requires OutBuf.Ok(b) && b.tag == store[inn[0]].tag && OutBuf.Ok(d) && Made(d) && d.tag == tag
      requires Blank(store[buf.value]) && Bytes(store[inn[0]]) == Bytes(d) + Bytes(b)
      modifies this`store
      ensures Valid(out) && store == old(store)[inn[0] := b][buf.value := d] && inn[0] != buf.value
        && buf.value !in inn && buf.value !in pending
    {
      ghost var s := Load(View(out), b, d);
      LoadOk(View(out), Notes(), b, d);
      store := store[inn[0] := b][buf.value := d];
      assert View(out) == s;
    }

    /** ngx_output_chain_copy_buf: as many bytes as fit, into a buffer that nobody is sending. */
    method CopyBuf(out: seq<Id>) returns (ok: bool)
      requires Valid(out) && inn != [] && buf.Some? && inn[0] in store && buf.value in store && OutBuf.Ok(store[inn[0]])
      requires Size(store[inn[0]]) > 0 && Blank(store[buf.value])
      modifies this`store, this`faults, this`failed
      ensures Valid(out) && inn[0] in store && buf.value in store && OutBuf.Ok(store[inn[0]])
        && OutBuf.Ok(store[buf.value])
      ensures !ok ==> store == old(store)
      ensures ok ==>
        Size(store[buf.value]) > 0 && Bytes(store[buf.value]) + Bytes(store[inn[0]]) == old(Bytes(store[inn[0]]))
      ensures ok ==> Bulk(store, inn) < old(Bulk(store, inn)) && buf.value !in pending
      ensures ok ==>
        Size(store[buf.value]) == old(store[buf.value].end - store[buf.value].pos) || Size(store[inn[0]]) == 0
      ensures ok ==>
        MarksOf(store[buf.value]) ==
        old(MarksOf(if Size(store[inn[0]]) <= store[buf.value].end - store[buf.value].pos then store[inn[0]]
        else store[buf.value]))
      ensures Alike(old(store), store, out) && SpecialIds(store) == old(SpecialIds(store))
      ensures ok ==> FilterFit(store[buf.value]) && !Special(store[buf.value])
      ensures failed == (old(failed) || !ok)
    {
      var src, dst := store[inn[0]], store[buf.value];
      TakenInfo(View(out), Notes());
      FrontInfo(View(out), Notes());
      var k := if Size(src) < dst.end - dst.pos then Size(src) else dst.end - dst.pos;
      ok := true;
      if !InMemory(src) {
        var fault := Fault();
        ok := !fault;
      }
      if ok {
        CopyBytes(out, k);
      }
    }

    /** k bytes go from one buffer to the other. */
    method CopyBytes(out: seq<Id>, k: nat)
      requires Valid(out) && inn != [] && buf.Some? && inn[0] in store && buf.value in store && OutBuf.Ok(store[inn[0]])
      requires OutBuf.Ok(store[buf.value]) && store[buf.value].tag == tag && Blank(store[buf.value])
        && inn[0] !in inn[1..] && buf.value !in inn && inn[0] !in out && buf.value !in out
      requires 0 < k <= Size(store[inn[0]]) && store[buf.value].pos + k <= store[buf.value].end
      modifies this`store
      ensures Valid(out) && inn[0] in store && buf.value in store && OutBuf.Ok(store[inn[0]])
        && OutBuf.Ok(store[buf.value])
      ensures Size(store[buf.value]) == k && Bytes(store[buf.value]) + Bytes(store[inn[0]]) == old(Bytes(store[inn[0]]))
      ensures Bulk(store, inn) < old(Bulk(store, inn)) && buf.value !in pending
      ensures MarksOf(store[buf.value]) == old(MarksOf(if k == Size(store[inn[0]]) then store[inn[0]]
        else store[buf.value]))
      ensures Alike(old(store), store, out) && SpecialIds(store) == old(SpecialIds(store))
      ensures FilterFit(store[buf.value]) && !Special(store[buf.value])
    {
      var src, dst := store[inn[0]], store[buf.value];
      CopiedMarks(dst, src, Bytes(src)[..k], sendfile);
      Copied(src, dst, k, sendfile);
      var b, d := Advance(src, k), Loaded(dst, src, Bytes(src)[..k], sendfile);
      KindsCopied(store, inn[0], b, buf.value, d, src, dst, k);
      Lighter(store, inn, b, buf.value, d);
      Transfer(out, b, d);
      assert store[inn[0]] == b && store[buf.value] == d;
    }

    lemma KindsCopied(st: Store, i: Id, b: Buf, j: Id, d: Buf, src: Buf, dst: Buf, k: nat)
      requires i in st && j in st && i != j && st[i] == src && st[j] == dst && OutBuf.Ok(src) && Blank(dst)
      requires b == Advance(src, k) && k <= Size(src) && dst.pos + k <= dst.end
        && d == Loaded(dst, src, Bytes(src)[..k], sendfile)
      ensures SpecialIds(st[i := b][j := d]) == SpecialIds(st) && FilterFit(d) && !Special(d)
    {
      LoadedKind(dst, src, Bytes(src)[..k], sendfile);
      SpecialSet(st, i, b);
      SpecialSet(st[i := b], j, d);
    }

    lemma Copied(src: Buf, dst: Buf, k: nat, sendfile: bool)
      requires OutBuf.Ok(src) && OutBuf.Ok(dst) && Blank(dst) && 0 < k <= Size(src) && dst.pos + k <= dst.end
      ensures var b, d := Advance(src, k), Loaded(dst, src, Bytes(src)[..k], sendfile);
        && OutBuf.Ok(b) && b.tag == src.tag && OutBuf.Ok(d) && Made(d) && d.tag == dst.tag
        && Bytes(src) == Bytes(d) + Bytes(b) && Size(b) < Size(src) && Size(d) == k
    {
      AdvanceOk(src, k);
      LoadedOk(dst, src, Bytes(src)[..k], sendfile);
      Cut(src, k);
    }

    lemma Cut(b: Buf, k: nat)
      requires OutBuf.Ok(b) && k <= Size(b)
      ensures Bytes(b) == Bytes(b)[..k] + Bytes(b)[k..]
    {}

    lemma Lighter(st: Store, l: seq<Id>, b: Buf, id: Id, d: Buf)
      requires l != [] && l[0] in st && OutBuf.Ok(st[l[0]]) && OutBuf.Ok(b) && Size(b) < Size(st[l[0]])
        && l[0] !in l[1..] && id !in l
      ensures Bulk(st[l[0] := b][id := d], l) < Bulk(st, l)
    {
      BulkKept(st, l[1..], l[0], b);
      BulkKept(st[l[0] := b], l, id, d);
    }

    /** The buffer copied to joins the list. */
    method PushBuf(out: seq<Id>) returns (out': seq<Id>)
      requires Valid(out) && buf.Some? && buf.value in store && OutBuf.Ok(store[buf.value])
        && Size(store[buf.value]) > 0
      modifies this`buf, this`pl
      ensures Valid(out') && buf == None && out' == out + [old(buf).value]
    {
      ghost var s := Push(View(out));
      PushGood(View(out), Notes());
      out' := out + [buf.value];
      pl := pl[buf.value := Leaving];
      buf := None;
      assert View(out') == s;
    }

    /** The first buffer of the queue is copied, all of it or as much as fits (ngx_output_chain.c:135-194). */
    method CopyStep(out: seq<Id>) returns (sig: Signal, out': seq<Id>)
      requires Valid(out) && buf == None && inn != [] && inn[0] in store && OutBuf.Ok(store[inn[0]])
        && Size(store[inn[0]]) > 0 && !Special(store[inn[0]]) && FitAll(out)
      modifies this`store, this`next, this`inn, this`buf, this`count, this`free, this`faults, this`failed, this`pl,
        this`made
      ensures Valid(out') && (sig != Fail ==> buf == None)
      ensures sig == Go ==> Bulk(store, inn) < old(Bulk(store, inn)) && out' != []
      ensures sig == Stop ==> out' == out && Bulk(store, inn) == old(Bulk(store, inn)) && inn == old(inn)
      ensures FitAll(out') && SpecialIds(store) == old(SpecialIds(store))
      ensures sig != Fail ==> var those := SpecialIds(store);
        Among(those, out') + Among(those, inn) == Among(those, out) + Among(those, old(inn))
      ensures sig == Stop ==> free == [] && (out != [] || count == num) && store == old(store)
      ensures failed == (old(failed) || sig == Fail)
    {
      out' := out;
      sig := Obtain(out);
      if sig != Go {
        return;
      }
      SpecialIs(store, inn[0]);
      var ok := CopyBuf(out);
      if !ok {
        return Fail, out;
      }
      sig, out' := AfterCopy(out);
    }

    /** A buffer copied to the end leaves the queue, and the copy joins the list (ngx_output_chain.c:179-194). */
    method AfterCopy(out: seq<Id>) returns (sig: Signal, out': seq<Id>)
      requires Valid(out) && inn != [] && inn[0] in store && OutBuf.Ok(store[inn[0]])
      requires buf.Some? && buf.value in store && OutBuf.Ok(store[buf.value]) && Size(store[buf.value]) > 0
      requires FitAll(out) && FilterFit(store[buf.value]) && !Special(store[buf.value]) && inn[0] !in SpecialIds(store)
      modifies this`store, this`inn, this`buf, this`faults, this`failed, this`pl
      ensures Valid(out') && sig != Stop && (sig == Go ==> buf == None && out' != [])
      ensures Bulk(store, inn) <= old(Bulk(store, inn))
      ensures FitAll(out') && store == old(store)
      ensures sig == Go ==> var those := SpecialIds(store);
        Among(those, out') == Among(those, out) && Among(those, inn) == Among(those, old(inn))
      ensures failed == (old(failed) || sig == Fail)
    {
      SpecialIs(store, buf.value);
      AmongDropped(SpecialIds(store), inn);
      AmongAdded(SpecialIds(store), out, buf.value);
      if Size(store[inn[0]]) == 0 {
        Discard(out);
      }
      sig, out' := LinkCopy(out);
    }

    /** The copy joins the list, if there is memory for the link. */
    method LinkCopy(out: seq<Id>) returns (sig: Signal, out': seq<Id>)
      requires Valid(out) && FitAll(out)
      requires buf.Some? && buf.value in store && OutBuf.Ok(store[buf.value]) && Size(store[buf.value]) > 0
        && FilterFit(store[buf.value])
      modifies this`buf, this`faults, this`failed, this`pl
      ensures Valid(out') && FitAll(out') && sig != Stop
      ensures if sig == Go then buf == None && out' == out + [old(buf).value] else out' == out
      ensures failed == (old(failed) || sig == Fail)
    {
      var fault := Fault();
      if fault {
        return Fail, out;
      }
      out' := PushBuf(out);
      sig := Go;
    }

    /** What ngx_output_chain_as_is does to the first buffer of the queue. */
    method Strip(out: seq<Id>)
      requires Valid(out) && inn != [] && inn[0] in store && OutBuf.Ok(store[inn[0]]) && inn[0] !in inn[1..]
        && FitAll(out)
        && inn[0] !in out
      modifies this`store, this`pl
      ensures Valid(out) && FitAll(out) && store == old(store)[inn[0] := Stripped(old(store[inn[0]]))]
      ensures OutBuf.Ok(store[inn[0]]) && Bytes(store[inn[0]]) == old(Bytes(store[inn[0]]))
        && (Special(store[inn[0]]) <==> old(Special(store[inn[0]])))
          && (AsIs(store[inn[0]]) <==> AsIs(old(store[inn[0]])))
        && (AsIs(store[inn[0]]) ==> FilterFit(store[inn[0]]))
      ensures Bulk(store, inn) == old(Bulk(store, inn)) && SpecialIds(store) == old(SpecialIds(store))
    {
      var b := store[inn[0]];
      StrippedOk(b);
      SameBulk(store, inn, Stripped(b));
      Amend(out, Stripped(b));
    }

    /**
     * The first buffer of the queue is dropped, shipped as it is, or copied: one turn of the inner loop
     * (ngx_output_chain.c:90-195).
     */
    method Step(out: seq<Id>) returns (sig: Signal, out': seq<Id>)
      requires Valid(out) && buf == None && inn != [] && FitAll(out)
      modifies this`store, this`next, this`inn, this`buf, this`count, this`free, this`faults, this`failed, this`pl,
        this`made
      ensures Valid(out') && (sig != Fail ==> buf == None)
      ensures sig == Go ==> Bulk(store, inn) < old(Bulk(store, inn)) && (out' == [] ==> out == [])
      ensures sig == Stop ==> out' == out && Bulk(store, inn) == old(Bulk(store, inn)) && inn == old(inn)
      ensures FitAll(out') && SpecialIds(store) == old(SpecialIds(store))
      ensures sig != Fail ==> var those := SpecialIds(store);
        Among(those, out') + Among(those, inn) == Among(those, out) + Among(those, old(inn))
      ensures sig == Stop ==> free == [] && (out != [] || count == num) && Stuck()
      ensures old(Passable()) ==> sig == Go && out' == out + [old(inn)[0]] && inn == old(inn)[1..]
      ensures failed == (old(failed) || sig == Fail)
    {
      PassableIs();
      FrontInfo(View(out), Notes());
      var b := store[inn[0]];
      if Size(b) == 0 && !Special(b) {
        SpecialIs(store, inn[0]);
        AmongDropped(SpecialIds(store), inn);
        Discard(out);
        return Go, out;
      }
      Strip(out);
      if AsIs(b) {
        AmongMoved(SpecialIds(store), out, inn);
        out' := Ship(out);
        return Go, out';
      }
      sig, out' := CopyStep(out);
    }

    /** The first buffer of the queue has bytes or a mark and is fit for the filter, without its file if need be. */
    ghost predicate Passable()
      reads this
    {
      && inn != [] && inn[0] in store && OutBuf.Ok(store[inn[0]])
      && var b := store[inn[0]];
         && (Size(b) > 0 || inn[0] in SpecialIds(store))
         && FilterFit(if sendfile || !InMemory(b) then b else b.(inFile := false))
    }

    lemma PassableIs()
      ensures Passable() ==> AsIs(store[inn[0]]) && (Size(store[inn[0]]) == 0 ==> Special(store[inn[0]]))
    {
      if Passable() { SpecialIs(store, inn[0]); }
    }

    /** The first buffer of the queue has to be copied. */
    ghost predicate Stuck()
      reads this
    {
      inn != [] && inn[0] in store && !AsIs(store[inn[0]])
    }

    lemma SameBulk(st: Store, l: seq<Id>, b: Buf)
      requires l != [] && l[0] in st && OutBuf.Ok(st[l[0]]) && OutBuf.Ok(b) && Bytes(b) == Bytes(st[l[0]])
        && l[0] !in l[1..]
      ensures Bulk(st[l[0] := b], l) == Bulk(st, l)
    {
      BulkKept(st, l[1..], l[0], b);
    }

    /** The inner loop: a list for the filter out of what is queued. */
    method BuildList() returns (ok: bool, out: seq<Id>)
      requires Valid([]) && buf == None
      modifies this`store, this`next, this`inn, this`buf, this`count, this`free, this`faults, this`failed, this`pl,
        this`made
      ensures Valid(out) && (ok ==> buf == None && Bulk(store, inn) <= old(Bulk(store, inn)))
      ensures ok && out != [] ==> Bulk(store, inn) < old(Bulk(store, inn))
      ensures FitAll(out) && SpecialIds(store) == old(SpecialIds(store))
      ensures ok ==> var those := SpecialIds(store); Among(those, out) + Among(those, inn) == Among(those, old(inn))
      ensures ok && inn != [] ==> free == [] && (out != [] || count == num) && Stuck()
      ensures failed == (old(failed) || !ok)
    {
      out := [];
      ok := true;
      var more := true;
      ghost var those := SpecialIds(store);
      assert [] + Among(those, inn) == Among(those, inn);
      while inn != [] && more && ok
        invariant Valid(out) && (ok ==> buf == None && Bulk(store, inn) <= old(Bulk(store, inn)))
        invariant ok && out != [] ==> Bulk(store, inn) < old(Bulk(store, inn))
        invariant FitAll(out) && SpecialIds(store) == those
        invariant ok ==> Among(those, out) + Among(those, inn) == Among(those, old(inn))
        invariant ok && !more ==> free == [] && (out != [] || count == num) && Stuck()
        invariant failed == (old(failed) || !ok)
        decreases if ok && more then 1 else 0, Bulk(store, inn)
      {
        var sig;
        sig, out := Step(out);
        more := sig == Go;
        ok := sig != Fail;
      }
    }

    // The filter

    /** The filter sends the first n bytes it has, and lets go of buffers without any. */
    method SendBytes(out: seq<Id>, n: nat)
      requires size > 0 && GoodAfter(View(out), Notes())
      modifies this`store, this`pending, this`sent
      ensures GoodAfter(View(out), Notes()) && Bulk(store, inn) == old(Bulk(store, inn)) && old(sent) <= sent
        && SpecialIds(store) == old(SpecialIds(store))
    {
      var left := n;
      var going := true;
      while pending != [] && going
        invariant GoodAfter(View(out), Notes()) && Bulk(store, inn) == old(Bulk(store, inn)) && old(sent) <= sent
        invariant SpecialIds(store) == old(SpecialIds(store))
        decreases |pending|, going
      {
        PendingInfo(View(out), Notes());
        var avail := Size(store[pending[0]]);
        var k := if avail < left then avail else left;
        going := k == avail;
        SendSome(out, k);
        left := left - k;
      }
    }

    method SendSome(out: seq<Id>, k: nat)
      requires GoodAfter(View(out), Notes()) && pending != [] && pending[0] in store && OutBuf.Ok(store[pending[0]])
      requires k <= Size(store[pending[0]]) && pending[0] !in inn
      modifies this`store, this`pending, this`sent
      ensures GoodAfter(View(out), Notes()) && Bulk(store, inn) == old(Bulk(store, inn))
      ensures pending == if k == old(Size(store[pending[0]])) then old(pending)[1..] else old(pending)
      ensures sent == old(sent) + old(Bytes(store[pending[0]])[..k]) && SpecialIds(store) == old(SpecialIds(store))
    {
      SpecialSet(store, pending[0], Advance(store[pending[0]], k));
      ghost var s := Send(View(out), k);
      SendGood(View(out), Notes(), k);
      BulkKept(store, inn, pending[0], Advance(store[pending[0]], k));
      var id, b := pending[0], store[pending[0]];
      sent := sent + Bytes(b)[..k];
      store := store[id := Advance(b, k)];
      if k == Size(b) {
        pending := pending[1..];
      }
      assert View(out) == s;
    }

    /** How the filter takes the next call. */
    method Decide() returns (reply: Reply)
      modifies this`script, this`calls, this`answer
      ensures reply == old(if script == [] then Reply(Again, 0) else script[0]) && answer == reply.code
      ensures script == old(if script == [] then [] else script[1..]) && calls == old(calls) + 1
    {
      reply := Reply(Again, 0);
      if script != [] {
        reply := script[0];
        script := script[1..];
      }
      calls := calls + 1;
      answer := reply.code;
    }

    /** `ctx->output_filter(ctx->filter_ctx, out)` */
    method CallFilter(out: seq<Id>) returns (code: Code)
      requires Valid(out) && buf == None && FitAll(out)
      modifies this`store, this`pending, this`script, this`handed, this`sent, this`shown, this`calls, this`answer
      ensures calls == old(calls) + 1
      ensures GoodAfter(View(out), Notes()) && Bulk(store, inn) == old(Bulk(store, inn)) && old(handed) <= handed
        && old(sent) <= sent
      ensures shown == old(shown) + out && SpecialIds(store) == old(SpecialIds(store))
      ensures code == answer == if old(script) == [] then Again else old(script)[0].code
    {
      var reply := Decide();
      HandOver(out);
      SendBytes(out, reply.bytes);
      code := reply.code;
    }

    method HandOver(out: seq<Id>)
      requires Valid(out) && buf == None && FitAll(out)
      modifies this`pending, this`handed, this`shown
      ensures GoodAfter(View(out), Notes()) && old(handed) <= handed && shown == old(shown) + out
    {
      ghost var s := Give(View(out));
      GoodParts(View(out), Notes());
      GiveGood(View(out), Notes());
      handed := handed + Flat(store, out);
      pending := pending + out;
      shown := shown + out;
      assert View(out) == s;
    }

    // ngx_chain_update_chains

    method Update(out: seq<Id>)
      requires size > 0 && GoodAfter(View(out), Notes()) && buf == None
      modifies this`store, this`busy, this`free, this`pl
      ensures Valid([]) && Bulk(store, inn) == old(Bulk(store, inn))
      ensures busy != [] ==> busy[0] in store && OutBuf.Ok(store[busy[0]]) && Size(store[busy[0]]) > 0
      ensures SpecialIds(store) == old(SpecialIds(store))
    {
      KeepAll(out);
      while busy != [] && Drained()
        invariant GoodAfter(View([]), Notes()) && Bulk(store, inn) == old(Bulk(store, inn))
        invariant SpecialIds(store) == old(SpecialIds(store))
        decreases |busy|
      {
        BusyInfo(View([]), Notes());
        DropFirst();
      }
      if busy != [] { BusyInfo(View([]), Notes()); }
      Between(View([]), Notes());
    }

    /** The first busy buffer has been sent. */
    predicate Drained()
      reads this
    {
      busy != [] && busy[0] in store && OutBuf.Ok(store[busy[0]]) && Size(store[busy[0]]) == 0
    }

    method KeepAll(out: seq<Id>)
      requires GoodAfter(View(out), Notes())
      modifies this`busy, this`pl
      ensures GoodAfter(View([]), Notes())
    {
      ghost var s := Keep(View(out));
      KeepGood(View(out), Notes());
      busy := busy + out;
      pl := s.pl;
      assert View([]) == s;
    }

    method ForgetFirst()
      requires GoodAfter(View([]), Notes()) && busy != [] && busy[0] !in made
      modifies this`busy
      ensures GoodAfter(View([]), Notes()) && busy == old(busy)[1..]
    {
      ghost var s := Forget(View([]));
      ForgetGood(View([]), Notes());
      busy := busy[1..];
      assert View([]) == s;
    }

    method Refile(id: Id, b: Buf)
      requires busy != []
      modifies this`store, this`busy, this`free
      ensures store == old(store)[id := b] && busy == old(busy)[1..] && free == [id] + old(free)
    {
      store, busy, free := store[id := b], busy[1..], [id] + free;
    }

    method RecycleFirst()
      requires GoodAfter(View([]), Notes()) && Drained() && busy[0] in made && busy[0] !in inn
      modifies this`store, this`busy, this`free, this`pl
      ensures GoodAfter(View([]), Notes()) && Bulk(store, inn) == old(Bulk(store, inn)) && busy == old(busy)[1..]
        && SpecialIds(store) == old(SpecialIds(store))
    {
      var id := busy[0];
      SpecialSet(store, id, Emptied(store[id]));
      ghost var s := Recycle(View([]));
      RecycleGood(View([]), Notes());
      BulkKept(store, inn, id, Emptied(store[id]));
      Refile(id, Emptied(store[id]));
      Mark(s.pl);
      assert View([]) == s;
    }

    method DropFirst()
      requires GoodAfter(View([]), Notes()) && Drained() && (busy[0] in made ==> busy[0] !in inn)
      requires busy[0] in made <==> store[busy[0]].tag == tag
      modifies this`store, this`busy, this`free, this`pl
      ensures GoodAfter(View([]), Notes()) && Bulk(store, inn) == old(Bulk(store, inn)) && busy == old(busy)[1..]
        && SpecialIds(store) == old(SpecialIds(store))
    {
      if store[busy[0]].tag != tag {
        ForgetFirst();
      } else {
        RecycleFirst();
      }
    }

    // ngx_output_chain

    /** One link, if there is memory. */
    method AddOne(id: Id, ghost those: seq<Id>) returns (ok: bool)
      requires Valid([]) && buf == None && those != [] && those[0] == id && Offered(View([]), those)
        && Known(store, [id])
      modifies this`inn, this`faults, this`failed, this`pl, this`input
      ensures Valid([]) && buf == None && (ok ==> Offered(View([]), those[1..]))
      ensures ok ==> inn == old(inn) + [id] && input == old(input) + Flat(store, [id])
      ensures !ok ==> inn == old(inn) && input == old(input)
      ensures failed == (old(failed) || !ok)
    {
      var fault := Fault();
      ok := !fault;
      if ok {
        OfferedFirst(View([]), those);
        Append([id]);
      }
    }

    /** ngx_output_chain_add_copy: links for the buffers, as far as there is memory. */
    method AddCopy(more: seq<Id>) returns (ok: bool, ghost m: nat)
      requires Valid([]) && buf == None && Offered(View([]), more) && Known(store, more)
      modifies this`inn, this`faults, this`failed, this`pl, this`input
      ensures Valid([]) && buf == None && m <= |more| && (ok ==> m == |more|) && inn == old(inn) + more[..m]
        && input == old(input) + Flat(store, more[..m])
      ensures failed == (old(failed) || !ok)
    {
      var i := 0;
      ok := true;
      assert more[..0] == [] && more[0..] == more;
      while i < |more| && ok
        invariant 0 <= i <= |more| && Valid([]) && inn == old(inn) + more[..i] && Offered(View([]), more[i..])
        invariant input == old(input) + Flat(store, more[..i]) && failed == (old(failed) || !ok)
        decreases |more| - i, ok
      {
        Grown(store, more, i);
        ok := AddOne(more[i], more[i..]);
        if ok {
          Assoc(old(inn), more[..i], [more[i]]);
          Assoc(old(input), Flat(store, more[..i]), Flat(store, [more[i]]));
          i := i + 1;
        }
      }
      m := i;
    }

    lemma Grown(st: Store, more: seq<Id>, i: nat)
      requires i < |more| && Known(st, more)
      ensures more[..i + 1] == more[..i] + [more[i]] && more[i..][1..] == more[i + 1..] && more[i..][0] == more[i]
        && Known(st, more[..i]) && Known(st, [more[i]])
      ensures Flat(st, more[..i + 1]) == Flat(st, more[..i]) + Flat(st, [more[i]])
    {
      assert more[..i + 1] == more[..i] + [more[i]];
      FlatParts(st, more[..i], [more[i]]);
    }

    method Append(more: seq<Id>)
      requires Valid([]) && buf == None && Offered(View([]), more) && Known(store, more)
      modifies this`inn, this`pl, this`input
      ensures Valid([]) && inn == old(inn) + more && input == old(input) + Flat(store, more)
        && View([]) == old(Enqueue(View([]), more))
    {
      ghost var s := Enqueue(View([]), more);
      EnqueueGood(View([]), Notes(), more);
      inn := inn + more;
      pl := s.pl;
      input := input + Flat(store, more);
      assert View([]) == s;
    }

    /** The filter is given the list and, unless that ends the call, what has been sent is seen to. */
    method Deliver(out: seq<Id>) returns (done: bool, code: Code, ghost lost: seq<Id>)
      requires Valid(out) && buf == None && FitAll(out)
      modifies this`store, this`busy, this`free, this`pending, this`script, this`pl, this`handed, this`sent, this`shown,
        this`calls, this`answer
      ensures code == answer && (done <==> code in {Error, Done}) && calls > old(calls)
      ensures if done then lost == out && GoodAfter(View(lost), Notes()) else lost == [] && Valid([])
      ensures Bulk(store, inn) == old(Bulk(store, inn)) && SpecialIds(store) == old(SpecialIds(store))
      ensures shown == old(shown) + out
    {
      lost := out;
      code := CallFilter(out);
      done := code == Error || code == Done;
      if !done {
        Update(out);
        lost := [];
      }
    }

    /**
     * A turn of the outer loop: build a list, hand it to the filter, and see what has been sent
     * (ngx_output_chain.c:82-215).
     */
    method Turn(last: Option<Code>) returns (done: bool, code: Code, ghost lost: seq<Id>)
      requires Valid([]) && buf == None && (last.Some? ==> last.value == answer && answer !in {Error, Done})
      modifies this`store, this`next, this`inn, this`busy, this`free, this`buf, this`count, this`faults, this`failed,
        this`pending,
        this`script, this`pl, this`made, this`handed, this`sent, this`shown, this`calls, this`answer
      ensures done && code in {Error, Done} ==> Valid(lost) || GoodAfter(View(lost), Notes())
      ensures !(done && code in {Error, Done}) ==> Valid([]) && buf == None && lost == []
      ensures !done ==> last == None || Bulk(store, inn) < old(Bulk(store, inn))
      ensures !done ==> Bulk(store, inn) <= old(Bulk(store, inn))
      ensures done && code == Ok ==> inn == []
      ensures done && code !in {Error, Done} && inn != [] ==> code == Again && free == [] && count == num && Stuck()
      ensures calls >= old(calls) && (last == None && !(done && code == Error) ==> calls > old(calls))
      ensures done ==> Tells(code, old(failed))
      ensures !done ==> failed == old(failed) && code == answer && answer !in {Error, Done}
      ensures SpecialIds(store) == old(SpecialIds(store))
      ensures !(done && code in {Error, Done}) ==> var those := SpecialIds(store);
        Among(those, shown) + Among(those, inn) == Among(those, old(shown)) + Among(those, old(inn))
    {
      var ok, out := BuildList();
      lost := [];
      AmongShown(SpecialIds(store), shown, out, inn);
      if !ok {
        return true, Error, out;
      }
      if out == [] && last.Some? {
        return true, if inn != [] then Again else last.value, lost;
      }
      done, code, lost := Deliver(out);
    }

    /** The outcome of a call: an error if a call failed, what the filter said, or that there is more to do. */
    ghost predicate Tells(code: Code, before: bool)
      reads this
    {
      before || code == if failed then Error else if answer in {Error, Done} || inn == [] then answer else Again
    }

    lemma AmongShown(those: set<Id>, shown: seq<Id>, out: seq<Id>, inn: seq<Id>)
      ensures Among(those, shown + out) + Among(those, inn) ==
        Among(those, shown) + (Among(those, out) + Among(those, inn))
      ensures out == [] ==> shown + out == shown
    {
      AmongParts(those, shown, out);
      Assoc(Among(those, shown), Among(those, out), Among(those, inn));
    }

    /**
     * With nothing waiting, a single buffer that needs no copy goes straight to the filter (ngx_output_chain.c:48-68).
     */
    method Direct(id: Id) returns (code: Code)
      requires Valid([]) && buf == None && inn == [] && Offered(View([]), [id]) && Known(store, [id]) && AsIs(store[id])
      modifies this`store, this`inn, this`pending, this`script, this`pl, this`input, this`handed, this`sent,
        this`shown, this`calls, this`answer
      ensures calls > old(calls)
      ensures Valid([]) && buf == None && inn == [] && input == old(input) + old(Flat(store, [id]))
      ensures shown == old(shown) + [id] && SpecialIds(store) == old(SpecialIds(store)) && code == answer
    {
      Append([id]);
      var out := ShipFirst();
      code := CallFilter(out);
      Release(out);
    }

    /** The only buffer of the queue becomes the list. */
    method ShipFirst() returns (out: seq<Id>)
      requires Valid([]) && buf == None && |inn| == 1 && inn[0] in store && AsIs(store[inn[0]])
      modifies this`store, this`inn, this`pl
      ensures Valid(out) && inn == [] && out == old(inn) && FitAll(out) && SpecialIds(store) == old(SpecialIds(store))
      ensures old(inn)[0] !in made
    {
      FrontInfo(View([]), Notes());
      var b := store[inn[0]];
      StrippedOk(b);
      Amend([], Stripped(b));
      FrontInfo(View([]), Notes());
      out := Ship([]);
    }

    ghost method Release(out: seq<Id>)
      requires size > 0 && GoodAfter(View(out), Notes()) && buf == None && forall id :: id in out ==> id !in made
      modifies this`pl
      ensures Valid([])
    {
      ghost var s := Loose(View(out));
      LooseGood(View(out), Notes());
      pl := s.pl;
      assert View([]) == s;
      Between(s, Notes());
    }

    /** The outer loop of ngx_output_chain. */
    method Drive() returns (code: Code, ghost lost: seq<Id>)
      requires Valid([]) && buf == None
      modifies this`store, this`next, this`inn, this`busy, this`free, this`buf, this`count, this`faults, this`failed,
        this`pending,
        this`script, this`pl, this`made, this`handed, this`sent, this`shown, this`calls, this`answer
      ensures code in {Error, Done} ==> Valid(lost) || GoodAfter(View(lost), Notes())
      ensures code !in {Error, Done} ==> Valid([]) && buf == None
      ensures code == Ok ==> inn == []
      ensures code !in {Error, Done} && inn != [] ==> code == Again && free == [] && count == num && Stuck()
      ensures code != Error ==> calls > old(calls)
      ensures Tells(code, old(failed))
      ensures SpecialIds(store) == old(SpecialIds(store))
      ensures code !in {Error, Done} ==> var those := SpecialIds(store);
        Among(those, shown) + Among(those, inn) == Among(those, old(shown)) + Among(those, old(inn))
    {
      var last: Option<Code> := None;
      var done := false;
      ghost var those := SpecialIds(store);
      code, lost := Again, [];
      while !done
        invariant !done ==> Valid([]) && buf == None
        invariant done && code in {Error, Done} ==> Valid(lost) || GoodAfter(View(lost), Notes())
        invariant done && code !in {Error, Done} ==> Valid([]) && buf == None
        invariant done && code == Ok ==> inn == []
        invariant done && code !in {Error, Done} && inn != [] ==>
          code == Again && free == [] && count == num && Stuck()
        invariant SpecialIds(store) == those
        invariant calls >= old(calls) && (last.Some? && !(done && code == Error) ==> calls > old(calls))
        invariant done ==> last.Some? && Tells(code, old(failed))
        invariant !done ==> failed == old(failed) && (last.Some? ==> last.value == answer && answer !in {Error, Done})
        invariant !(done && code in {Error, Done}) ==>
          Among(those, shown) + Among(those, inn) == Among(those, old(shown)) + Among(those, old(inn))
        decreases !done, if last == None then 1 else 0, Bulk(store, inn)
      {
        done, code, lost := Turn(last);
        last := Some(code);
      }
    }

    /** The filter is called without a list. */
    method Nothing() returns (code: Code)
      requires Valid([]) && buf == None
      modifies this`store, this`pending, this`script, this`handed, this`sent, this`shown, this`calls, this`answer
      ensures Valid([]) && code == answer && calls > old(calls) && shown == old(shown)
      ensures SpecialIds(store) == old(SpecialIds(store))
    {
      code := CallFilter([]);
      assert shown == old(shown);
      Between(View([]), Notes());
    }

    /** The new buffers join the queue, and then the loop (ngx_output_chain.c:70-215). */
    method Regular(more: seq<Id>) returns (code: Code, ghost lost: seq<Id>)
      requires Valid([]) && buf == None && Offered(View([]), more) && Known(store, more)
      modifies this`store, this`next, this`inn, this`busy, this`free, this`buf, this`count, this`faults, this`failed,
        this`pending, this`script, this`pl, this`made, this`input, this`handed, this`sent, this`shown, this`calls,
          this`answer
      ensures code in {Error, Done} ==> Valid(lost) || GoodAfter(View(lost), Notes())
      ensures code !in {Error, Done} ==> Valid([]) && buf == None && input == old(input) + old(Flat(store, more))
      ensures code == Ok ==> inn == []
      ensures code !in {Error, Done} && inn != [] ==> code == Again && free == [] && count == num && Stuck()
      ensures (code != Error ==> calls > old(calls)) && Tells(code, old(failed))
      ensures SpecialIds(store) == old(SpecialIds(store))
      ensures code !in {Error, Done} ==> var those := SpecialIds(store);
        Among(those, shown) + Among(those, inn) == Among(those, old(shown)) + Among(those, old(inn) + more)
    {
      var ok;
      ghost var m;
      ok, m := AddCopy(more);
      if !ok {
        return Error, [];
      }
      assert more[..m] == more;
      code, lost := Drive();
    }

    /**
     * ngx_output_chain: the buffers `more` come in, and lists go to the filter as long as there are buffers to copy to.
     * Ok means that all has been handed over. After Error or Done, `lost` is the list that was being built or handed
     * over.
     */
    method Output(more: seq<Id>) returns (code: Code, ghost lost: seq<Id>)
      requires Valid([]) && buf == None && Offered(View([]), more) && Known(store, more)
      modifies this`store, this`next, this`inn, this`busy, this`free, this`buf, this`count, this`faults, this`failed,
        this`pending,
        this`script, this`pl, this`made,
        this`input, this`handed, this`sent, this`shown, this`calls, this`answer
      ensures code in {Error, Done} ==> Valid(lost) || GoodAfter(View(lost), Notes())
      ensures code !in {Error, Done} ==> Valid([]) && buf == None && input == old(input) + old(Flat(store, more))
      ensures code == Ok ==> inn == []
      ensures code !in {Error, Done} && inn != [] ==> code == Again && free == [] && count == num && Stuck()
      ensures code != Error ==> calls > old(calls)
      ensures Tells(code, old(failed))
      ensures SpecialIds(store) == old(SpecialIds(store))
      ensures code !in {Error, Done} ==> var those := SpecialIds(store);
        Among(those, shown) + Among(those, inn) == Among(those, old(shown)) + Among(those, old(inn) + more)
    {
      lost := [];
      if inn == [] && busy == [] {
        if more == [] {
          code := Nothing();
          assert inn + more == [];
          return;
        }
        if |more| == 1 && AsIs(store[more[0]]) {
          OnlyOne(SpecialIds(store), shown, inn, more);
          code := Direct(more[0]);
          return;
        }
      }
      code, lost := Regular(more);
    }

    /**
     * Between calls: nothing is lost, duplicated or out of order, copy buffers are few, and free ones hold nothing
     * anybody sends.
     */
    lemma Conserved()
      requires Valid([]) && buf == None
      ensures Known(store, inn) && Known(store, pending) && handed + Flat(store, inn) == input
        && sent + Flat(store, pending) == handed
      ensures count <= num && |made| == count
        && forall id :: id in free ==> id in store && Blank(store[id]) && id !in pending
    {
      Between(View([]), Notes());
      AfterParts(View([]), Notes());
      FreeApart(View([]));
    }

    /**
     * Where a call ended with an error while a list was being built, what has not been handed over is in that list, the
     * buffer copied to, and the queue.
     */
    lemma LostWhileBuilding(lost: seq<Id>)
      requires Valid(lost)
      ensures Known(store, lost) && Known(store, Hand(buf)) && Known(store, inn)
      ensures input == handed + (Flat(store, lost) + Flat(store, Hand(buf)) + Flat(store, inn))
    {
      GoodParts(View(lost), Notes());
      assert Flow(View(lost), input, handed, sent);
    }

    /** Where it ended with an answer of the filter, the list is with the filter. */
    lemma LostWithFilter(lost: seq<Id>)
      requires GoodAfter(View(lost), Notes())
      ensures Known(store, inn) && input == handed + Flat(store, inn)
    {
      AfterParts(View(lost), Notes());
      assert FlowAfter(View(lost), input, handed, sent);
    }

    /** In both cases what was handed over is a beginning of what came in, and none of it is lost or overwritten. */
    lemma ConservedAtError(lost: seq<Id>)
      requires Valid(lost) || GoodAfter(View(lost), Notes())
      ensures count <= num && handed <= input
      ensures Known(store, pending) && sent + Flat(store, pending) == handed
    {
      if Valid(lost) {
        GoodParts(View(lost), Notes());
        assert handed + Line(View(lost)) == input;
      } else {
        AfterParts(View(lost), Notes());
        assert handed + Flat(store, inn) == input;
      }
    }
  }
}
