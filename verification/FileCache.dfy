/** The cache of open files of ngx_open_file_cache.c, on a platform without vnode events. */
module FileCache {

  const INVALID := -1

  /** The address of a cached entry. */
  type Ref = nat

  /** ngx_cached_open_file_t */
  datatype File = File(name: string, fd: int, uniq: int, err: int, isDir: bool, count: nat, close: bool, uses: nat,
      created: int, accessed: int,
                       symlinks: Symlinks)

  /** `disable_symlinks` and `disable_symlinks_from` */
  datatype Symlinks = Symlinks(mode: nat, prefix: nat)

  predicate Plain(f: File) { f.err == 0 && !f.isDir }

  /** An entry that can be looked up: only a plain file with an open descriptor has users. */
  predicate Cached(f: File) {
    && f.fd >= INVALID
    && (Plain(f) ==> !f.close)
    && (f.count > 0 ==> Plain(f) && f.fd != INVALID)
    && (!Plain(f) ==> f.fd == INVALID)
  }

  /** An entry no longer in the tree, kept for those who still use its descriptor. */
  predicate Detached(f: File) { f.fd > INVALID && Plain(f) && f.close && f.count > 0 }

  ghost function Elems<T>(s: seq<T>): set<T> { set x | x in s }

  ghost predicate NoDup<T>(s: seq<T>) { forall i, j :: 0 <= i < j < |s| ==> s[i] != s[j] }

  /** The entries in the tree: each under its own name. */
  ghost predicate Rooted(tree: map<string, Ref>, treed: set<Ref>, files: map<Ref, File>) {
    && (forall n :: n in tree ==> tree[n] in treed && tree[n] in files && files[tree[n]].name == n)
    && (forall r :: r in treed ==> r in files && files[r].name in tree && tree[files[r].name] == r)
  }

  /** Every entry is fit for where it is: in the tree, kept for its users, or about to be given up. */
  ghost predicate Fit(treed: set<Ref>, files: map<Ref, File>, dying: set<Ref>) {
    forall r :: r in files ==>
      if r in treed then Cached(files[r]) else if r in dying then Parting(files[r]) else Detached(files[r])
  }

  predicate Parting(f: File) { f.close && Plain(f) && f.fd >= INVALID && (f.count > 0 ==> f.fd != INVALID) }

  /** The expire queue holds the entries of the tree, except those in `out`. */
  ghost predicate Lined(queue: seq<Ref>, treed: set<Ref>, out: set<Ref>, current: nat) {
    NoDup(queue) && out <= treed && Elems(queue) == treed - out && current == |queue| + |out|
  }

  /**
   * Every descriptor in `fds` belongs to exactly one entry, its owner, except those in `loose`, which belong to none.
   */
  ghost predicate Owned(files: map<Ref, File>, owner: map<int, Ref>, fds: set<int>, loose: set<int>) {
    && fds == owner.Keys + loose && owner.Keys !! loose && INVALID !in fds
    && (forall r :: r in files && files[r].fd != INVALID ==> files[r].fd in owner && owner[files[r].fd] == r)
    && (forall d :: d in owner ==> owner[d] in files && files[owner[d]].fd == d)
  }

  /** Every entry counts its outstanding cleanups. */
  ghost predicate Counted(files: map<Ref, File>, users: multiset<Ref>) {
    && (forall r :: r in files ==> files[r].count == users[r])
    && (forall r :: r in users ==> r in files)
  }

  /** Entries in use stay as they are, except perhaps `close`, and their descriptors stay open. */
  ghost predicate Kept(files: map<Ref, File>, files': map<Ref, File>, fds: set<int>) {
    forall r :: r in files && files[r].count > 0 ==>
      r in files' && files'[r].(close := files[r].close) == files[r] && files'[r].fd in fds
  }

  lemma KeptTrans(files0: map<Ref, File>, files1: map<Ref, File>, fds1: set<int>, files2: map<Ref, File>,
      fds2: set<int>)
    requires Kept(files0, files1, fds1) && Kept(files1, files2, fds2)
    ensures Kept(files0, files2, fds2)
  {}

  /** The entries dropped from the end of a queue, but for the last `n` of them, have been inactive too long. */
  ghost predicate Stale(files: map<Ref, File>, queue: seq<Ref>, left: nat, n: nat, now: int, inactive: int) {
    forall i {:trigger queue[i]} :: 0 <= left <= i < |queue| - n ==>
      queue[i] in files && now - files[queue[i]].accessed > inactive
  }

  /** The last entry of a queue has been active lately. */
  ghost predicate Lively(files: map<Ref, File>, queue: seq<Ref>, now: int, inactive: int) {
    queue != [] && queue[|queue| - 1] in files && now - files[queue[|queue| - 1]].accessed <= inactive
  }

  /** The front of a queue has the entries it had. */
  ghost predicate SameFront(files: map<Ref, File>, files': map<Ref, File>, queue: seq<Ref>) {
    forall j {:trigger queue[j]} :: 0 <= j < |queue| ==>
      queue[j] in files && queue[j] in files' && files'[queue[j]] == files[queue[j]]
  }

  lemma FrontStays(queue: seq<Ref>, files0: map<Ref, File>, files1: map<Ref, File>, files2: map<Ref, File>, last: Ref)
    requires NoDup(queue) && queue != [] && last == queue[|queue| - 1] && files2 - {last} == files1 - {last}
      && SameFront(files0, files1, queue)
    ensures SameFront(files0, files2, queue[..|queue| - 1])
  {
    forall j | 0 <= j < |queue| - 1 ensures queue[j] in files2 && files2[queue[j]] == files1[queue[j]] {
      assert queue[j] in files1 - {last};
    }
  }

  /** Entries in use keep their descriptors, and these stay open. */
  ghost predicate Held(files: map<Ref, File>, files': map<Ref, File>, fds: set<int>) {
    forall r :: r in files && files[r].count > 0 ==> r in files' && files'[r].fd == files[r].fd && files[r].fd in fds
  }

  /** The descriptors of entries in use stay open. */
  ghost predicate StillOpen(files: map<Ref, File>, fds: set<int>) {
    forall r :: r in files && files[r].count > 0 ==> files[r].fd in fds
  }

  lemma KeptHeld(files: map<Ref, File>, files': map<Ref, File>, fds: set<int>)
    requires Kept(files, files', fds)
    ensures Held(files, files', fds) && StillOpen(files, fds)
  {}

  /** Only the entry `r` has changed. */
  lemma HeldExcept(files: map<Ref, File>, files': map<Ref, File>, fds: set<int>, r: Ref, f: File)
    requires Kept(files, files, fds) && r in files && files' == files[r := f]
    ensures StillOpen(files, fds) && (f.fd == files[r].fd ==> Held(files, files', fds))
  {}

  /** The same users and descriptors. */
  ghost predicate Alike(files: map<Ref, File>, files': map<Ref, File>) {
    forall q :: q in files ==> q in files' && files'[q].count == files[q].count && files'[q].fd == files[q].fd
  }

  lemma UsesAlike(files: map<Ref, File>, r: Ref)
    requires r in files
    ensures Alike(files, files[r := files[r].(uses := files[r].uses + 1)])
  {}

  lemma HeldFrom(files0: map<Ref, File>, files1: map<Ref, File>, files2: map<Ref, File>, fds: set<int>)
    requires Alike(files0, files1) && StillOpen(files1, fds)
    ensures StillOpen(files0, fds) && (Held(files1, files2, fds) ==> Held(files0, files2, fds))
  {}

  lemma KeptExcept(files: map<Ref, File>, files': map<Ref, File>, fds: set<int>, r: Ref, f: File)
    requires Kept(files', files', fds) && files' == files[r := f] && (r in files ==> files[r].count == 0)
    ensures Kept(files, files', fds)
  {}

  /** The descriptors held by no entry once `d` has been opened, unless it is no new descriptor. */
  ghost function Plus(loose: set<int>, d: int, was: int): set<int> {
    if d == INVALID || d == was then loose else loose + {d}
  }

  lemma PutBack(loose: set<int>, was: int, d: int)
    requires INVALID !in loose && d !in loose && was !in loose
    ensures d == was || was == INVALID ==> Rest(Plus(loose, d, was), was, d) == loose
    ensures d == INVALID && was != INVALID ==> Rest(Plus(loose, d, was), was, d) == loose + {was}
    ensures d != was && d != INVALID && was != INVALID ==> Rest(Plus(loose, d, was), was, d) == loose + {was}
  {}

  /** Everybody who uses an entry has its descriptor, still open. */
  ghost predicate Served(users: multiset<Ref>, files: map<Ref, File>, files': map<Ref, File>, fds: set<int>) {
    forall q :: q in users ==> q in files && q in files' && files'[q].fd == files[q].fd && files'[q].fd in fds
  }

  /** An entry and its descriptor are gone exactly if its last use has ended. */
  ghost predicate OverWith(r: Ref, d: int, uses: nat, files: map<Ref, File>, fds: set<int>) {
    (r !in files <==> uses == 1) && (d !in fds <==> uses == 1)
  }

  lemma OverStill(r: Ref, d: int, users: multiset<Ref>, users': multiset<Ref>, files: map<Ref, File>,
      files1: map<Ref, File>, fds1: set<int>, files2: map<Ref, File>, fds2: set<int>)
    requires r in users && users' == users - multiset{r} && r in files && files[r].fd == d
      && Served(users', files, files2, fds2)
    requires OverWith(r, d, users[r], files1, fds1) && files2.Keys <= files1.Keys && fds2 <= fds1
    ensures OverWith(r, d, users[r], files2, fds2)
  {
    if users[r] > 1 { assert r in users'; }
  }

  lemma ServedKept(users: multiset<Ref>, files: map<Ref, File>, files1: map<Ref, File>, fds1: set<int>,
      files2: map<Ref, File>, fds2: set<int>)
    requires Served(users, files, files1, fds1) && Counted(files1, users) && Kept(files1, files2, fds2)
    ensures Served(users, files, files2, fds2)
  {
    forall q | q in users ensures q in files && q in files2 && files2[q].fd == files[q].fd && files2[q].fd in fds2 {
      assert files1[q].count > 0;
    }
  }

  /** What holds once a use has ended still holds when entries have expired. */
  lemma Ended(r: Ref, close: bool, users: multiset<Ref>, users': multiset<Ref>, files: map<Ref, File>,
              files1: map<Ref, File>, fds1: set<int>, files2: map<Ref, File>, fds2: set<int>)
    requires r in users && users' == users - multiset{r} && r in files && Served(users', files, files1, fds1)
    requires Counted(files1, users') && Kept(files1, files2, fds2) && files2.Keys <= files1.Keys && fds2 <= fds1
    requires close ==> OverWith(r, files[r].fd, users[r], files1, fds1)
    ensures Served(users', files, files2, fds2) && (close ==> OverWith(r, files[r].fd, users[r], files2, fds2))
  {
    ServedKept(users', files, files1, fds1, files2, fds2);
    if close { OverStill(r, files[r].fd, users, users', files, files1, fds1, files2, fds2); }
  }

  // The expire queue, first entry first

  function Remove(s: seq<Ref>, x: Ref): seq<Ref> {
    if s == [] then [] else if s[0] == x then s[1..] else [s[0]] + Remove(s[1..], x)
  }

  lemma {:induction false} RemoveElems(s: seq<Ref>, x: Ref)
    requires NoDup(s)
    ensures Elems(Remove(s, x)) == Elems(s) - {x}
    ensures |Remove(s, x)| == if x in s then |s| - 1 else |s|
  {
    if s != [] {
      var t := s[1..];
      assert NoDup(t) && s == [s[0]] + t && s[0] !in t by { assert forall i :: 0 <= i < |t| ==> t[i] == s[i + 1]; }
      if s[0] != x {
        RemoveElems(t, x);
        assert Elems([s[0]] + Remove(t, x)) == {s[0]} + Elems(Remove(t, x));
      }
      assert Elems(s) == {s[0]} + Elems(t);
    }
  }

  lemma {:induction false} RemoveNoDup(s: seq<Ref>, x: Ref)
    requires NoDup(s)
    ensures NoDup(Remove(s, x))
  {
    if s != [] && s[0] != x {
      var t := s[1..];
      assert NoDup(t) && s[0] !in t by { assert forall i :: 0 <= i < |t| ==> t[i] == s[i + 1]; }
      RemoveNoDup(t, x);
      RemoveElems(t, x);
      assert s[0] !in Elems(Remove(t, x));
      NoDupFront(s[0], Remove(t, x));
    }
  }

  lemma NoDupFront(x: Ref, s: seq<Ref>)
    requires NoDup(s) && x !in s
    ensures NoDup([x] + s) && Elems([x] + s) == {x} + Elems(s)
  {}

  ghost predicate Open(k: int) { true }

  /**
   * Tree, queue, count, entries and descriptors, with the ghost records of which entries are in the tree, whose each
   * descriptor is, and who uses what.
   */
  datatype State = State(tree: map<string, Ref>, queue: seq<Ref>, current: nat, files: map<Ref, File>, fds: set<int>,
                         treed: set<Ref>, owner: map<int, Ref>, users: multiset<Ref>, asked: map<string, Look>)

  /** When the system was last asked about a name, what it said, and how symbolic links were to be followed. */
  datatype Look = Look(when: int, of: Of, symlinks: Symlinks)

  /** The entry says what the system said, except that its descriptor may have been closed since. */
  ghost predicate Tells(f: File, l: Look) {
    && f.created == l.when && f.symlinks == l.symlinks && f.err == l.of.err
    && (f.err == 0 ==> f.uniq == l.of.uniq && f.isDir == l.of.isDir && (f.fd == l.of.fd || f.fd == INVALID))
  }

  /** The entries in the tree, except those in `out`, say what the system last said about their names. */
  ghost predicate Dated(treed: set<Ref>, files: map<Ref, File>, asked: map<string, Look>, out: set<Ref>) {
    forall r :: r in treed && r !in out && r in files ==> DatedOne(files[r], asked)
  }

  ghost predicate DatedOne(f: File, asked: map<string, Look>) { f.name in asked && Tells(f, asked[f.name]) }

  lemma DatedAt(treed: set<Ref>, files: map<Ref, File>, asked: map<string, Look>, out: set<Ref>, treed': set<Ref>,
      files': map<Ref, File>, out': set<Ref>, r: Ref)
    requires Dated(treed, files, asked, out) && treed' <= treed + {r} && out <= out' + {r}
    requires files' - {r} == files - {r}
    requires r in treed' && r !in out' && r in files' ==> DatedOne(files'[r], asked)
    ensures Dated(treed', files', asked, out')
  {
    forall q | q in treed' && q !in out' && q in files' ensures DatedOne(files'[q], asked) {
      if q != r { assert q in files' - {r} && q in treed && q !in out && q in files && files'[q] == files[q]; }
    }
  }

  /** Kept folded: a proof that needs what it says asserts Open(0). */
  ghost predicate Sound(s: State, out: set<Ref>, dying: set<Ref>, loose: set<int>) {
    forall k :: Open(k) ==>
      && Rooted(s.tree, s.treed, s.files) && Fit(s.treed, s.files, dying) && Lined(s.queue, s.treed, out, s.current)
      && Owned(s.files, s.owner, s.fds, loose) && Counted(s.files, s.users)
      && Dated(s.treed, s.files, s.asked, out)
  }

  lemma Unpack(s: State, out: set<Ref>, dying: set<Ref>, loose: set<int>)
    requires Sound(s, out, dying, loose)
    ensures Rooted(s.tree, s.treed, s.files) && Fit(s.treed, s.files, dying) && Lined(s.queue, s.treed, out, s.current)
    ensures Owned(s.files, s.owner, s.fds, loose) && Counted(s.files, s.users)
    ensures Dated(s.treed, s.files, s.asked, out)
  {
    assert Open(0);
  }

  lemma Pack(s: State, out: set<Ref>, dying: set<Ref>, loose: set<int>)
    requires Rooted(s.tree, s.treed, s.files) && Fit(s.treed, s.files, dying) && Lined(s.queue, s.treed, out, s.current)
    requires Owned(s.files, s.owner, s.fds, loose) && Counted(s.files, s.users)
    requires Dated(s.treed, s.files, s.asked, out)
    ensures Sound(s, out, dying, loose)
  {}

  // Changing or dropping one entry, part by part

  lemma RootedAt(tree: map<string, Ref>, treed: set<Ref>, files: map<Ref, File>, r: Ref, f: File)
    requires Rooted(tree, treed, files) && r in files && f.name == files[r].name
    ensures Rooted(tree, treed, files[r := f])
  {}

  ghost predicate FitOne(treed: set<Ref>, dying: set<Ref>, r: Ref, f: File) {
    if r in treed then Cached(f) else if r in dying then Parting(f) else Detached(f)
  }

  lemma FitAt(treed: set<Ref>, files: map<Ref, File>, dying: set<Ref>, treed': set<Ref>, files': map<Ref, File>,
      dying': set<Ref>, r: Ref)
    requires Fit(treed, files, dying) && treed' - {r} == treed - {r} && dying' - {r} == dying - {r}
      && files' - {r} == files - {r}
    requires r in files' ==> FitOne(treed', dying', r, files'[r])
    ensures Fit(treed', files', dying')
  {
    forall q | q in files' && q != r ensures FitOne(treed', dying', q, files'[q]) {
      assert q in files' - {r} && (q in treed' <==> q in treed' - {r}) && (q in dying' <==> q in dying' - {r});
      assert FitOne(treed, dying, q, files[q]);
    }
  }

  lemma OwnedAt(files: map<Ref, File>, owner: map<int, Ref>, fds: set<int>, loose: set<int>, r: Ref, f: File)
    requires Owned(files, owner, fds, loose) && r in files && f.fd == files[r].fd
    ensures Owned(files[r := f], owner, fds, loose)
  {}

  lemma OwnedDrop(files: map<Ref, File>, owner: map<int, Ref>, fds: set<int>, loose: set<int>, r: Ref)
    requires Owned(files, owner, fds, loose) && r in files && files[r].fd == INVALID
    ensures Owned(files - {r}, owner, fds, loose)
  {}

  lemma CountedAt(files: map<Ref, File>, users: multiset<Ref>, r: Ref, f: File, users': multiset<Ref>)
    requires Counted(files, users) && users' == users[r := f.count]
    ensures Counted(files[r := f], users')
  {}

  lemma CountedUse(files: map<Ref, File>, users: multiset<Ref>, r: Ref, f: File, users': multiset<Ref>)
    requires Counted(files, users) && r in files
    requires (f.count == files[r].count && users' == users)
      || (f.count == files[r].count + 1 && users' == users + multiset{r})
    ensures Counted(files[r := f], users')
  {
    CountedAt(files, users, r, f, users');
  }

  lemma CountedDrop(files: map<Ref, File>, users: multiset<Ref>, r: Ref)
    requires Counted(files, users) && r in files && files[r].count == 0
    ensures Counted(files - {r}, users)
  {}

  lemma Unqueued(s: State, r: Ref, loose: set<int>)
    requires Sound(s, {}, {}, loose) && r in s.treed
    ensures Sound(s.(queue := Remove(s.queue, r)), {r}, {}, loose)
  {
    Unpack(s, {}, {}, loose);
    assert r in Elems(s.queue);
    RemoveElems(s.queue, r);
    RemoveNoDup(s.queue, r);
    Pack(s.(queue := Remove(s.queue, r)), {r}, {}, loose);
  }

  lemma Enqueued(s: State, r: Ref, loose: set<int>)
    requires Sound(s, {r}, {}, loose) && r in s.files && DatedOne(s.files[r], s.asked)
    ensures Sound(s.(queue := [r] + s.queue), {}, {}, loose)
  {
    Unpack(s, {r}, {}, loose);
    DatedAt(s.treed, s.files, s.asked, {r}, s.treed, s.files, {}, r);
    assert r !in Elems(s.queue);
    NoDupFront(r, s.queue);
    Pack(s.(queue := [r] + s.queue), {}, {}, loose);
  }

  lemma LinedPop(queue: seq<Ref>, treed: set<Ref>, current: nat)
    requires Lined(queue, treed, {}, current) && queue != []
    ensures Lined(queue[..|queue| - 1], treed, {queue[|queue| - 1]}, current)
  {
    var q, r := queue[..|queue| - 1], queue[|queue| - 1];
    assert queue == q + [r];
    assert r in Elems(queue) && Elems(queue) == Elems(q) + {r} && r !in Elems(q);
  }

  lemma Popped(s: State, loose: set<int>)
    requires Sound(s, {}, {}, loose) && s.queue != []
    ensures Sound(s.(queue := s.queue[..|s.queue| - 1]), {s.queue[|s.queue| - 1]}, {}, loose)
  {
    Unpack(s, {}, {}, loose);
    var q, r := s.queue[..|s.queue| - 1], s.queue[|s.queue| - 1];
    LinedPop(s.queue, s.treed, s.current);
    Pack(s.(queue := q), {r}, {}, loose);
  }

  ghost function Shut(s: State, r: Ref): State
    requires r in s.files
  {
    s.(fds := s.fds - {s.files[r].fd}, owner := s.owner - {s.files[r].fd},
      files := s.files[r := s.files[r].(fd := INVALID)])
  }

  lemma ShutOwned(files: map<Ref, File>, owner: map<int, Ref>, fds: set<int>, loose: set<int>, r: Ref)
    requires Owned(files, owner, fds, loose) && r in files && files[r].fd in fds
    ensures Owned(files[r := files[r].(fd := INVALID)], owner - {files[r].fd}, fds - {files[r].fd}, loose)
  {}

  lemma RootedDrop(tree: map<string, Ref>, treed: set<Ref>, files: map<Ref, File>, files': map<Ref, File>, r: Ref)
    requires Rooted(tree, treed, files) && r in treed
      && forall q :: q in files && q != r ==> q in files' && files'[q] == files[q]
    ensures Rooted(tree - {files[r].name}, treed - {r}, files')
  {}

  lemma ShutOk(s: State, r: Ref, out: set<Ref>, dying: set<Ref>, loose: set<int>)
    requires Sound(s, out, dying, loose) && r in s.files && s.files[r].fd in s.fds && s.files[r].count == 0
      && (r in s.treed || r in dying)
    ensures Sound(Shut(s, r), out, dying, loose)
  {
    Unpack(s, out, dying, loose);
    var f, s' := s.files[r].(fd := INVALID), Shut(s, r);
    ShutOwned(s.files, s.owner, s.fds, loose, r);
    RootedAt(s.tree, s.treed, s.files, r, f);
    assert s'.files - {r} == s.files - {r};
    FitAt(s.treed, s.files, dying, s.treed, s'.files, dying, r);
    CountedAt(s.files, s.users, r, f, s.users);
    DatedAt(s.treed, s.files, s.asked, out, s.treed, s'.files, out, r);
    Pack(s', out, dying, loose);
  }

  /** The entry leaves the tree. */
  ghost function Uprooted(s: State, r: Ref): State
    requires r in s.files && s.current > 0
  {
    s.(tree := s.tree - {s.files[r].name}, current := s.current - 1, treed := s.treed - {r},
      files := s.files[r := s.files[r].(close := true)])
  }

  lemma WithoutIt<K, V>(m: map<K, V>, r: K, v: V)
    ensures m[r := v] - {r} == m - {r}
  {}

  lemma WithoutTwice<K, V>(m: map<K, V>, r: K)
    ensures m - {r} - {r} == m - {r}
  {}

  lemma LinedOut(queue: seq<Ref>, treed: set<Ref>, current: nat, r: Ref)
    requires Lined(queue, treed, {r}, current)
    ensures current > 0 && Lined(queue, treed - {r}, {}, current - 1)
  {}

  lemma UprootOk(s: State, r: Ref, loose: set<int>)
    requires Sound(s, {r}, {}, loose) && r in s.files && Plain(s.files[r])
    ensures s.current > 0 && Sound(Uprooted(s, r), {}, {r}, loose)
  {
    Unpack(s, {r}, {}, loose);
    var f, s' := s.files[r].(close := true), Uprooted(s, r);
    RootedDrop(s.tree, s.treed, s.files, s'.files, r);
    WithoutIt(s.files, r, f);
    LinedOut(s.queue, s.treed, s.current, r);
    FitAt(s.treed, s.files, {}, s'.treed, s'.files, {r}, r);
    OwnedAt(s.files, s.owner, s.fds, loose, r, f);
    CountedAt(s.files, s.users, r, f, s.users);
    DatedAt(s.treed, s.files, s.asked, {r}, s'.treed, s'.files, {}, r);
    Pack(s', {}, {r}, loose);
  }

  lemma FreeOk(s: State, r: Ref, loose: set<int>)
    requires Sound(s, {}, {r}, loose) && r in s.files && r !in s.treed && s.files[r].count == 0
      && s.files[r].fd == INVALID
    ensures Sound(s.(files := s.files - {r}), {}, {}, loose)
  {
    Unpack(s, {}, {r}, loose);
    var s' := s.(files := s.files - {r});
    FitAt(s.treed, s.files, {r}, s.treed, s'.files, {}, r);
    OwnedDrop(s.files, s.owner, s.fds, loose, r);
    CountedDrop(s.files, s.users, r);
    DatedAt(s.treed, s.files, s.asked, {}, s.treed, s'.files, {}, r);
    Pack(s', {}, {}, loose);
  }

  ghost function Discarded(s: State, r: Ref): State
    requires r in s.files && s.current > 0
  {
    s.(tree := s.tree - {s.files[r].name}, current := s.current - 1, treed := s.treed - {r}, files := s.files - {r})
  }

  lemma DiscardOk(s: State, r: Ref, loose: set<int>)
    requires Sound(s, {r}, {}, loose) && r in s.files && !Plain(s.files[r])
    ensures s.current > 0 && Sound(Discarded(s, r), {}, {}, loose) && s.files[r].count == 0 && s.files[r].fd == INVALID
  {
    Unpack(s, {r}, {}, loose);
    assert Cached(s.files[r]);
    var s' := Discarded(s, r);
    RootedDrop(s.tree, s.treed, s.files, s'.files, r);
    WithoutTwice(s.files, r);
    FitAt(s.treed, s.files, {}, s'.treed, s'.files, {}, r);
    OwnedDrop(s.files, s.owner, s.fds, loose, r);
    CountedDrop(s.files, s.users, r);
    LinedOut(s.queue, s.treed, s.current, r);
    DatedAt(s.treed, s.files, s.asked, {r}, s'.treed, s'.files, {}, r);
    Pack(s', {}, {}, loose);
  }

  lemma Queued(s: State, out: set<Ref>, dying: set<Ref>, loose: set<int>)
    requires Sound(s, out, dying, loose)
    ensures NoDup(s.queue) && s.current == |s.queue| + |out|
    ensures forall r :: r in s.queue ==> r in s.files && r in s.treed
    ensures forall r :: r in out ==> r in s.files && r in s.treed && r !in s.queue
  {
    assert Open(0);
    forall r | r in s.queue ensures r in s.treed { assert r in Elems(s.queue); }
    forall r | r in out ensures r !in s.queue { assert r !in Elems(s.queue); }
  }

  lemma InUseOpen(s: State, out: set<Ref>, dying: set<Ref>, loose: set<int>)
    requires Sound(s, out, dying, loose)
    ensures Kept(s.files, s.files, s.fds)
  {
    assert Open(0);
  }

  lemma Leaving(s: State, r: Ref, loose: set<int>)
    requires Sound(s, {}, {r}, loose) && r in s.files && r !in s.treed
    ensures s.files[r].fd == INVALID || s.files[r].fd in s.fds
    ensures s.files[r].count > 0 ==> Sound(s, {}, {}, loose)
  {
    assert Open(0);
  }

  /** Changing fields of an entry that do not bear on where it belongs. */
  lemma TouchOk(s: State, r: Ref, f: File, out: set<Ref>, dying: set<Ref>, loose: set<int>)
    requires Sound(s, out, dying, loose) && r in s.files
      && s.files[r] == f.(accessed := s.files[r].accessed, uses := s.files[r].uses)
    ensures Sound(s.(files := s.files[r := f]), out, dying, loose)
  {
    Unpack(s, out, dying, loose);
    var s' := s.(files := s.files[r := f]);
    RootedAt(s.tree, s.treed, s.files, r, f);
    assert s'.files - {r} == s.files - {r} && FitOne(s.treed, dying, r, s.files[r]);
    FitAt(s.treed, s.files, dying, s.treed, s'.files, dying, r);
    OwnedAt(s.files, s.owner, s.fds, loose, r, f);
    CountedAt(s.files, s.users, r, f, s.users);
    DatedAt(s.treed, s.files, s.asked, out, s.treed, s'.files, out, r);
    Pack(s', out, dying, loose);
  }

  /** One user less. */
  ghost function Released(s: State, r: Ref): State
    requires r in s.files && s.files[r].count > 0
  {
    s.(files := s.files[r := s.files[r].(count := s.files[r].count - 1)], users := s.users - multiset{r})
  }

  lemma ReleaseOk(s: State, r: Ref, loose: set<int>)
    requires Sound(s, {}, {}, loose) && r in s.users
    ensures r in s.files && s.files[r].count > 0 && Plain(s.files[r]) && s.files[r].fd in s.fds
      && (s.files[r].close <==> r !in s.treed)
    ensures Sound(Released(s, r), {}, {r}, loose)
    ensures r in s.treed ==> Sound(Released(s, r), {}, {}, loose)
  {
    Unpack(s, {}, {}, loose);
    assert FitOne(s.treed, {}, r, s.files[r]);
    var f, s' := s.files[r].(count := s.files[r].count - 1), Released(s, r);
    RootedAt(s.tree, s.treed, s.files, r, f);
    assert s'.files - {r} == s.files - {r};
    FitAt(s.treed, s.files, {}, s.treed, s'.files, {r}, r);
    OwnedAt(s.files, s.owner, s.fds, loose, r, f);
    CountedAt(s.files, s.users, r, f, s'.users);
    DatedAt(s.treed, s.files, s.asked, {}, s.treed, s'.files, {}, r);
    Pack(s', {}, {r}, loose);
    if r in s.treed {
      FitAt(s.treed, s.files, {}, s.treed, s'.files, {}, r);
      Pack(s', {}, {}, loose);
    }
  }

  lemma LooseOpened(s: State, d: int, out: set<Ref>, dying: set<Ref>, loose: set<int>)
    requires Sound(s, out, dying, loose) && d !in s.fds && d != INVALID
    ensures Sound(s.(fds := s.fds + {d}), out, dying, loose + {d})
  {
    assert Open(0);
  }

  lemma LooseClosed(s: State, d: int, out: set<Ref>, dying: set<Ref>, loose: set<int>)
    requires Sound(s, out, dying, loose) && d in loose
    ensures Sound(s.(fds := s.fds - {d}), out, dying, loose - {d})
  {
    assert Open(0);
  }

  /** Descriptors held by no entry once an entry exchanges `was` for `is`. */
  ghost function Rest(loose: set<int>, was: int, fd: int): set<int> {
    if was == fd || was == INVALID then loose - {fd} else loose - {fd} + {was}
  }

  ghost function Exchange(owner: map<int, Ref>, r: Ref, was: int, fd: int): map<int, Ref> {
    if fd == INVALID then owner - {was} else (owner - {was})[fd := r]
  }

  lemma ExchangeOwned(files: map<Ref, File>, owner: map<int, Ref>, fds: set<int>, loose: set<int>, r: Ref, f: File)
    requires Owned(files, owner, fds, loose) && r in files && (f.fd == files[r].fd || f.fd == INVALID || f.fd in loose)
    ensures Owned(files[r := f], Exchange(owner, r, files[r].fd, f.fd), fds, Rest(loose, files[r].fd, f.fd))
  {
    var was := files[r].fd;
    var files', owner', loose' := files[r := f], Exchange(owner, r, was, f.fd), Rest(loose, was, f.fd);
    assert was != INVALID ==> was in owner && owner[was] == r;
    assert fds == owner'.Keys + loose';
    assert owner'.Keys !! loose';
  }

  ghost function Adopted(s: State, r: Ref, f: File, users: multiset<Ref>): State
    requires r in s.files
  {
    s.(files := s.files[r := f], users := users, owner := Exchange(s.owner, r, s.files[r].fd, f.fd))
  }

  /** An entry of the tree takes over what the open and stat calls found. */
  lemma AdoptOk(s: State, r: Ref, f: File, users: multiset<Ref>, loose: set<int>)
    requires Sound(s, {r}, {}, loose) && r in s.files && f.name == s.files[r].name && Cached(f)
    requires f.fd == s.files[r].fd || f.fd == INVALID || f.fd in loose
    requires (f.count == s.files[r].count && users == s.users)
      || (f.count == s.files[r].count + 1 && users == s.users + multiset{r})
    ensures Sound(Adopted(s, r, f, users), {r}, {}, Rest(loose, s.files[r].fd, f.fd))
  {
    Unpack(s, {r}, {}, loose);
    var s' := Adopted(s, r, f, users);
    RootedAt(s.tree, s.treed, s.files, r, f);
    WithoutIt(s.files, r, f);
    FitAt(s.treed, s.files, {}, s.treed, s'.files, {}, r);
    ExchangeOwned(s.files, s.owner, s.fds, loose, r, f);
    CountedUse(s.files, s.users, r, f, users);
    DatedAt(s.treed, s.files, s.asked, {r}, s.treed, s'.files, {r}, r);
    Pack(s', {r}, {}, Rest(loose, s.files[r].fd, f.fd));
  }

  /** One more user of an entry that keeps its descriptor. */
  lemma UseOk(s: State, r: Ref, f: File, users: multiset<Ref>, loose: set<int>)
    requires Sound(s, {r}, {}, loose) && r in s.files && f.name == s.files[r].name && Cached(f) && f.fd == s.files[r].fd
    requires (f.count == s.files[r].count && users == s.users)
      || (f.count == s.files[r].count + 1 && users == s.users + multiset{r})
    ensures Sound(s.(files := s.files[r := f], users := users), {r}, {}, loose)
  {
    Unpack(s, {r}, {}, loose);
    var s' := s.(files := s.files[r := f], users := users);
    RootedAt(s.tree, s.treed, s.files, r, f);
    assert s'.files - {r} == s.files - {r};
    FitAt(s.treed, s.files, {}, s.treed, s'.files, {}, r);
    OwnedAt(s.files, s.owner, s.fds, loose, r, f);
    CountedAt(s.files, s.users, r, f, users);
    DatedAt(s.treed, s.files, s.asked, {r}, s.treed, s'.files, {r}, r);
    Pack(s', {r}, {}, loose);
  }

  lemma Unused(treed: set<Ref>, users: multiset<Ref>, tree: map<string, Ref>, files: map<Ref, File>, r: Ref)
    requires Rooted(tree, treed, files) && Counted(files, users) && r !in files
    ensures r !in treed && r !in users
  {}

  lemma FitAdd(treed: set<Ref>, files: map<Ref, File>, r: Ref, f: File)
    requires Fit(treed, files, {}) && r !in files && Cached(f)
    ensures Fit(treed + {r}, files[r := f], {})
  {}

  lemma CountedAdd(files: map<Ref, File>, users: multiset<Ref>, r: Ref, f: File)
    requires Counted(files, users) && r !in users && f.count == 0
    ensures Counted(files[r := f], users)
  {}

  lemma LinedAdd(queue: seq<Ref>, treed: set<Ref>, current: nat, r: Ref)
    requires Lined(queue, treed, {}, current) && r !in treed
    ensures Lined(queue, treed + {r}, {r}, current + 1)
  {}

  lemma RootedAdd(tree: map<string, Ref>, treed: set<Ref>, files: map<Ref, File>, r: Ref, f: File)
    requires Rooted(tree, treed, files) && r !in files && f.name !in tree
    ensures Rooted(tree[f.name := r], treed + {r}, files[r := f])
  {}

  lemma OwnedAdd(files: map<Ref, File>, owner: map<int, Ref>, fds: set<int>, loose: set<int>, r: Ref, f: File)
    requires Owned(files, owner, fds, loose) && r !in files && f.fd == INVALID
    ensures Owned(files[r := f], owner, fds, loose)
  {}

  lemma DatedAdd(treed: set<Ref>, files: map<Ref, File>, asked: map<string, Look>, r: Ref, f: File)
    requires Dated(treed, files, asked, {}) && r !in files
    ensures Dated(treed + {r}, files[r := f], asked, {r})
  {
    assert files[r := f] - {r} == files - {r};
    DatedAt(treed, files, asked, {}, treed + {r}, files[r := f], {r}, r);
  }

  /** The system is asked about a name, whose entry, if there is one, is being looked at. */
  lemma AskOk(s: State, name: string, l: Look, out: set<Ref>, loose: set<int>)
    requires Sound(s, out, {}, loose) && (name in s.tree ==> s.tree[name] in out)
    ensures Sound(s.(asked := s.asked[name := l]), out, {}, loose)
  {
    Unpack(s, out, {}, loose);
    forall r | r in s.treed && r !in out && r in s.files ensures DatedOne(s.files[r], s.asked[name := l]) {
      assert s.files[r].name != name && DatedOne(s.files[r], s.asked);
    }
    Pack(s.(asked := s.asked[name := l]), out, {}, loose);
  }

  /** A new entry, without a descriptor yet. */
  ghost function Planted(s: State, r: Ref, f: File): State {
    s.(tree := s.tree[f.name := r], files := s.files[r := f], treed := s.treed + {r}, current := s.current + 1)
  }

  lemma PlantOk(s: State, r: Ref, f: File, loose: set<int>)
    requires Sound(s, {}, {}, loose) && r !in s.files && f.name !in s.tree && Cached(f) && f.fd == INVALID
      && f.count == 0
    ensures Sound(Planted(s, r, f), {r}, {}, loose)
  {
    Unpack(s, {}, {}, loose);
    Unused(s.treed, s.users, s.tree, s.files, r);
    RootedAdd(s.tree, s.treed, s.files, r, f);
    LinedAdd(s.queue, s.treed, s.current, r);
    FitAdd(s.treed, s.files, r, f);
    OwnedAdd(s.files, s.owner, s.fds, loose, r, f);
    CountedAdd(s.files, s.users, r, f);
    DatedAdd(s.treed, s.files, s.asked, r, f);
    Pack(Planted(s, r, f), {r}, {}, loose);
  }

  /** What a system call returns. */
  datatype Reply<T> = Got(value: T) | Errno(err: int)

  datatype Info = Info(uniq: int, isDir: bool)

  /** What stat, open and fstat answer while a file is opened. */
  datatype Os = Os(stat: Reply<Info>, open: Reply<int>, fstat: Reply<Info>)

  /** ngx_open_file_info_t on return from ngx_open_and_stat_file, with the return code. */
  datatype Of = Of(ok: bool, fd: int, uniq: int, err: int, isDir: bool)

  /** What the caller asks for, and the time. */
  datatype Request = Request(name: string, uniq: int, valid: int, minUses: nat, testDir: bool, errors: bool, now: int,
      symlinks: Symlinks)

  predicate Sane(os: Os, fds: set<int>) {
    && (os.stat.Errno? ==> os.stat.err != 0) && (os.open.Errno? ==> os.open.err != 0)
    && (os.open.Got? ==> os.open.value >= 0 && os.open.value !in fds)
  }

  /**
   * The outcome, by what the calls answer: kept as it is, a directory, a newly opened file, an error, or a failed
   * fstat.
   */
  function Found(fd: int, uniq: int, testDir: bool, os: Os): Of {
    if (fd != INVALID || testDir) && os.stat.Errno? then Of(false, INVALID, uniq, os.stat.err, false)
    else if fd != INVALID && os.stat.value.uniq == uniq then Of(true, fd, uniq, 0, os.stat.value.isDir)
    else if fd == INVALID && testDir && os.stat.value.isDir then Of(true, INVALID, os.stat.value.uniq, 0, true)
    else if os.open.Errno? then Of(false, INVALID, uniq, os.open.err, false)
    else if os.fstat.Errno? then Of(false, INVALID, uniq, 0, false)
    else if os.fstat.value.isDir then Of(true, INVALID, os.fstat.value.uniq, 0, true)
    else Of(true, os.open.value, os.fstat.value.uniq, 0, false)
  }

  /** What is there under a name: nothing that can be looked at, or something, which can be opened or not. */
  datatype World = Missing(err: int) | Thing(info: Info, open: Reply<int>)

  /** The calls tell of one thing, which does not change between them. */
  predicate Steady(os: Os, w: World) {
    match w
    case Missing(err) => err != 0 && os.stat == Errno(err) && os.open == Errno(err)
    case Thing(info, open) =>
      os.stat == Got(info) && os.open == open && (open.Got? ==> os.fstat == Got(info))
        && (open.Errno? ==> open.err != 0)
  }

  /**
   * If nothing changes meanwhile, what is found is what is there, under the descriptor held already if there is one.
   */
  lemma FoundIsThere(fd: int, uniq: int, testDir: bool, os: Os, w: World)
    requires Steady(os, w) && (fd != INVALID && w.Thing? && w.info.uniq == uniq ==> !w.info.isDir)
    requires w.Thing? && w.open.Got? ==> w.open.value >= 0
    ensures var of := Found(fd, uniq, testDir, os);
      && (of.ok ==> w.Thing? && of.err == 0 && of.uniq == w.info.uniq && of.isDir == w.info.isDir)
      && (of.ok ==> of.fd == if w.info.isDir then INVALID else if fd != INVALID && w.info.uniq == uniq then fd
        else os.open.value)
      && (!of.ok ==>
        of.fd == INVALID && of.err == if w.Missing? then w.err else if w.open.Errno? then w.open.err else 0)
      && (w.Thing? && w.open.Got? ==> of.ok)
  {}

  /**
   * The name led elsewhere at the stat and back to the same inode at the open: a second descriptor for the same file.
   */
  predicate Flip(f: File, os: Os) {
    && f.fd != INVALID && os.stat.Got? && os.stat.value.uniq != f.uniq
    && os.open.Got? && os.fstat.Got? && !os.fstat.value.isDir && os.fstat.value.uniq == f.uniq
  }

  /** The same file has come back under a second descriptor. */
  predicate Doubled(f: File, of: Of) {
    Plain(f) && of.err == 0 && !of.isDir && of.uniq == f.uniq && of.fd != f.fd
  }

  /** What a cacheable result of testing an entry again looks like. */
  lemma FoundFacts(f: File, testDir: bool, os: Os, errors: bool, fds: set<int>)
    requires Cached(f) && (Plain(f) ==> f.fd != INVALID) && Sane(os, fds) && (f.fd != INVALID ==> f.fd in fds)
    requires f.fd != INVALID && os.stat.Got? && os.stat.value.uniq == f.uniq ==> !os.stat.value.isDir
    ensures var of := Found(f.fd, f.uniq, testDir, os);
      && of.fd >= INVALID && (Cacheable(of, errors) ==> (of.fd == INVALID <==> of.err != 0 || of.isDir))
      && (!Cacheable(of, errors) ==> of.fd == INVALID && !Flip(f, os))
      && (of.fd == f.fd && of.fd != INVALID ==> of.err == 0 && of.uniq == f.uniq && !of.isDir)
      && (Flip(f, os) <==> Cacheable(of, errors) && Doubled(f, of))
  {}

  /** The entry may answer without a new test (ngx_open_file_cache.c:226-234). */
  predicate Current(f: File, req: Request) {
    (req.uniq == 0 || req.uniq == f.uniq) && req.now - f.created < req.valid && req.symlinks == f.symlinks
  }

  /** The entry answers by itself. */
  predicate Answering(f: File, req: Request) { (Plain(f) ==> f.fd != INVALID) && Current(f, req) }

  /** What the calls say, if the entry does not answer by itself. */
  function Heard(f: File, req: Request, os: Os): Of {
    if Plain(f) && f.fd == INVALID then Found(INVALID, req.uniq, req.testDir, os)
    else Found(f.fd, f.uniq, f.isDir || req.testDir, os)
  }

  datatype Option<T> = None | Some(value: T)

  /** What the caller gets: a descriptor with the entry whose cleanup is registered, a directory, or an error. */
  datatype Answer = Serving(fd: int, entry: Ref) | Directory | Failure(err: int)

  /**
   * The result is one to cache: a file, a directory, or, if the caller wants errors cached, an error
   * (ngx_open_file_cache.c:219, 287, 352).
   */
  predicate Cacheable(of: Of, errors: bool) { of.ok || (of.err != 0 && errors) }

  /** The entry after `update` and `found` (ngx_open_file_cache.c:393-424). */
  function Updated(f: File, of: Of, req: Request): File {
    var g := f.(fd := of.fd, err := of.err, symlinks := req.symlinks, created := req.now, accessed := req.now);
    if of.err == 0 then
      g.(uniq := of.uniq, close := false, isDir := of.isDir, count := if of.isDir then f.count else f.count + 1)
    else g
  }

  lemma UpdatedTells(f: File, of: Of, req: Request)
    ensures Tells(Updated(f, of, req), Look(req.now, of, req.symlinks)) && Updated(f, of, req).name == f.name
  {}

  /**
   * A new entry. What ngx_alloc leaves in `uniq`, `isDir` and `close` survives `update` only when an error is cached.
   */
  function Blank(name: string, isError: bool, junk: (int, bool, bool)): (f: File)
    ensures Cached(f) && f.fd == INVALID && f.count == 0 && f.name == name && f.uses == 1
  {
    if isError then File(name, INVALID, junk.0, 1, junk.1, 0, junk.2, 1, 0, 0, Symlinks(0, 0))
      else File(name, INVALID, 0, 0, false, 0, false, 1, 0, 0, Symlinks(0, 0))
  }

  function AnswerOf(of: Of, r: Ref): Answer {
    if of.err != 0 then Failure(of.err) else if of.isDir then Directory else Serving(of.fd, r)
  }

  /** What becomes of a name: no entry, and an error to report, or an entry, which also is the answer. */
  datatype After = Gone(err: int) | There(entry: Ref, file: File)

  function AnswerFrom(after: After): Answer {
    if after.Gone? then Failure(after.err)
    else if after.file.err != 0 then Failure(after.file.err)
    else if after.file.isDir then Directory
    else Serving(after.file.fd, after.entry)
  }

  /** The entry takes what was found. */
  function Taken(r: Ref, f: File, of: Of, req: Request): After {
    if Cacheable(of, req.errors) then There(r, Updated(f, of, req)) else Gone(of.err)
  }

  /** A new entry takes what was found, if there is memory for it. */
  function Made(of: Of, req: Request, room: Option<Ref>, junk: (int, bool, bool)): After {
    if room.None? then Gone(of.err) else There(room.value, Updated(Blank(req.name, of.err != 0, junk), of, req))
  }

  function Newly(of: Of, req: Request, room: Option<Ref>, junk: (int, bool, bool)): After {
    if Cacheable(of, req.errors) then Made(of, req, room, junk) else Gone(of.err)
  }

  /** A file in use, under whose name something else was found. */
  predicate Replaced(f: File, of: Of) { Plain(f) && f.count > 0 && !(of.err == 0 && !of.isDir && of.uniq == f.uniq) }

  function Retested(r: Ref, f: File, req: Request, os: Os, room: Option<Ref>, junk: (int, bool, bool)): After {
    var of := Found(f.fd, f.uniq, f.isDir || req.testDir, os);
    if Replaced(f, of) then Newly(of, req, room, junk) else Taken(r, f, of, req)
  }

  /** The descriptors a call may open. */
  function Opened(os: Os): set<int> { if os.open.Got? then {os.open.value} else {} }

  lemma FoundNew(uniq: int, testDir: bool, os: Os, errors: bool, fds: set<int>)
    requires Sane(os, fds)
    ensures var of := Found(INVALID, uniq, testDir, os);
      of.fd >= INVALID
        && if Cacheable(of, errors) then of.fd == INVALID <==> of.err != 0 || of.isDir else of.fd == INVALID
  {}

  /** `uses` has no part in it. */
  lemma UsesAside(f: File, req: Request, os: Os)
    ensures var g := f.(uses := f.uses + 1); (Flip(g, os) <==> Flip(f, os)) && (Current(g, req) <==> Current(f, req))
    ensures var g := f.(uses := f.uses + 1);
      (Answering(g, req) <==> Answering(f, req)) && Heard(g, req, os) == Heard(f, req, os)
  {}

  lemma RetestedAs(r: Ref, f: File, req: Request, os: Os, room: Option<Ref>, junk: (int, bool, bool), of: Of)
    requires of == Found(f.fd, f.uniq, f.isDir || req.testDir, os)
    ensures !Cacheable(of, req.errors) ==> Retested(r, f, req, os, room, junk) == Gone(of.err)
    ensures Cacheable(of, req.errors) ==>
      Retested(r, f, req, os, room, junk) == if Replaced(f, of) then Made(of, req, room, junk)
        else There(r, Updated(f, of, req))
  {}

  function Shared(f: File, now: int): File { f.(count := if Plain(f) then f.count + 1 else f.count, accessed := now) }

  function Consulted(r: Ref, f: File, req: Request, os: Os, room: Option<Ref>, junk: (int, bool, bool)): After {
    if Plain(f) && f.fd == INVALID then Taken(r, f, Found(INVALID, req.uniq, req.testDir, os), req)
    else if Current(f, req) then There(r, Shared(f, req.now))
    else Retested(r, f, req, os, room, junk)
  }

  /** The name leads to that entry, which is the last to expire, or to none; and that is the answer. */
  ghost predicate Settled(tree: map<string, Ref>, queue: seq<Ref>, files: map<Ref, File>, name: string, after: After,
      a: Answer) {
    && a == AnswerFrom(after)
    && if after.Gone? then name !in tree
       else name in tree && tree[name] == after.entry && queue != [] && queue[0] == after.entry
            && after.entry in files && files[after.entry] == after.file
  }

  /** How often the entry has been asked for by now, if it is the one the name led to, and 1 if it is new. */
  ghost function Uses(tree: map<string, Ref>, files: map<Ref, File>, name: string, r: Ref): nat {
    if name in tree && tree[name] == r && r in files then files[r].uses + 1 else 1
  }

  ghost predicate UsedAt(files: map<Ref, File>, r: Ref, now: int, uses: nat) {
    r in files && files[r].accessed == now && files[r].uses == uses
  }

  /** Other names lead where they led, or nowhere. */
  ghost predicate Others(tree: map<string, Ref>, tree': map<string, Ref>, name: string) {
    forall n :: n in tree' && n != name ==> n in tree && tree[n] == tree'[n]
  }

  ghost predicate Fewer(tree: map<string, Ref>, tree': map<string, Ref>) {
    forall n :: n in tree' ==> n in tree && tree[n] == tree'[n]
  }

  /** One more use of the entry if the answer is a descriptor. */
  ghost function Use(users: multiset<Ref>, a: Answer): multiset<Ref> {
    if a.Serving? then users + multiset{a.entry} else users
  }

  class FileCache {
    var tree: map<string, Ref>
    var queue: seq<Ref>
    var current: nat
    const max: nat
    const inactive: int
    /** The entries allocated, by address. */
    var files: map<Ref, File>
    /** The descriptors open. */
    var fds: set<int>

    ghost var treed: set<Ref>
    ghost var owner: map<int, Ref>
    /** The outstanding cleanups, one for each use of an entry. */
    ghost var users: multiset<Ref>
    /** Descriptors that are open and that no entry holds any more. */
    ghost var leaked: set<int>
    /** What the system said about each name when it was last asked. */
    ghost var asked: map<string, Look>

    ghost function View(): State
      reads this
    {
      State(tree, queue, current, files, fds, treed, owner, users, asked)
    }

    ghost predicate Inv(out: set<Ref>, dying: set<Ref>, loose: set<int>)
      reads this
    {
      Sound(View(), out, dying, loose)
    }

    /** Between calls. */
    ghost predicate Valid()
      reads this
    {
      Inv({}, {}, leaked) && current <= max && max >= 1
    }

    /** ngx_open_file_cache_init */
    constructor (m: nat, i: int)
      requires m >= 1
      ensures Valid() && files == map[] && fds == {} && users == multiset{} && max == m && inactive == i && leaked == {}
        && asked == map[]
    {
      tree, queue, current, files, fds := map[], [], 0, map[], {};
      max, inactive, users, leaked, treed, owner, asked := m, i, multiset{}, {}, {}, map[], map[];
    }

    /** `ngx_queue_remove(&file->queue)` for an entry in the tree. */
    method Unqueue(r: Ref, ghost loose: set<int>)
      requires Inv({}, {}, loose) && r in treed
      modifies this`queue
      ensures Inv({r}, {}, loose) && queue == Remove(old(queue), r)
    {
      Unqueued(View(), r, loose);
      queue := Remove(queue, r);
    }

    /** `ngx_queue_insert_head` */
    method Enqueue(r: Ref, ghost loose: set<int>)
      requires Inv({r}, {}, loose) && r in files && DatedOne(files[r], asked)
      modifies this`queue
      ensures Inv({}, {}, loose) && queue == [r] + old(queue)
    {
      Enqueued(View(), r, loose);
      queue := [r] + queue;
    }

    /** ngx_close_file on an entry's descriptor: never while the entry is in use. */
    method CloseFd(r: Ref, ghost out: set<Ref>, ghost dying: set<Ref>, ghost loose: set<int>)
      requires Inv(out, dying, loose) && r in files && files[r].fd in fds && files[r].count == 0
        && (r in treed || r in dying)
      modifies this`files, this`fds, this`owner
      ensures Inv(out, dying, loose) && files == old(files)[r := old(files)[r].(fd := INVALID)]
        && fds == old(fds) - {old(files)[r].fd}
    {
      ShutOk(View(), r, out, dying, loose);
      fds := fds - {files[r].fd};
      owner := owner - {files[r].fd};
      files := files[r := files[r].(fd := INVALID)];
    }

    /** `ngx_rbtree_delete`, `current--`, `file->close = 1` */
    method Uproot(r: Ref, ghost loose: set<int>)
      requires Inv({r}, {}, loose) && r in files && Plain(files[r])
      modifies this`tree, this`current, this`files, this`treed
      ensures Inv({}, {r}, loose) && files == old(files)[r := old(files)[r].(close := true)]
      ensures tree == old(tree) - {old(files)[r].name} && current == old(current) - 1 && treed == old(treed) - {r}
    {
      UprootOk(View(), r, loose);
      tree := tree - {files[r].name};
      current := current - 1;
      files := files[r := files[r].(close := true)];
      treed := treed - {r};
    }

    /** `ngx_free(file)` for an entry without users. */
    method Free(r: Ref, ghost loose: set<int>)
      requires Inv({}, {r}, loose) && r in files && r !in treed && files[r].count == 0 && files[r].fd == INVALID
      modifies this`files
      ensures Inv({}, {}, loose) && files == old(files) - {r}
    {
      FreeOk(View(), r, loose);
      files := files - {r};
    }

    /** ngx_close_cached_file for an entry given up (`close` is set): freed unless it still has users. */
    method GiveUp(r: Ref, ghost loose: set<int>)
      requires Inv({}, {r}, loose) && r in files && r !in treed
      modifies this`files, this`fds, this`owner
      ensures Inv({}, {}, loose)
      ensures old(files)[r].count > 0 ==> files == old(files) && fds == old(fds)
      ensures old(files)[r].count == 0 ==> files == old(files) - {r} && fds == old(fds) - {old(files)[r].fd}
    {
      Leaving(View(), r, loose);
      if files[r].count > 0 {
        return;
      }
      if files[r].fd != INVALID {
        CloseFd(r, {}, {r}, loose);
      } else {
        assert INVALID !in fds by { assert Open(0); }
      }
      Free(r, loose);
    }

    /** A dir or error entry is removed and freed (ngx_open_file_cache.c:1060-1074). */
    method Discard(r: Ref, ghost loose: set<int>)
      requires Inv({r}, {}, loose) && r in files && !Plain(files[r])
      modifies this`tree, this`current, this`files, this`treed
      ensures Inv({}, {}, loose) && files == old(files) - {r} && tree == old(tree) - {old(files)[r].name}
        && old(files)[r].count == 0
      ensures current == old(current) - 1 && treed == old(treed) - {r}
    {
      DiscardOk(View(), r, loose);
      tree := tree - {files[r].name};
      current := current - 1;
      files := files - {r};
      treed := treed - {r};
    }

    /** The least recently used entry leaves the cache (ngx_open_file_cache.c:1050-1074). */
    method Evict(ghost loose: set<int>)
      requires Inv({}, {}, loose) && queue != []
      modifies this`tree, this`queue, this`current, this`files, this`fds, this`treed, this`owner
      ensures Inv({}, {}, loose) && queue == old(queue)[..|old(queue)| - 1] && current == old(current) - 1
        && Fewer(old(tree), tree)
      ensures var r := old(queue)[|old(queue)| - 1]; files - {r} == old(files) - {r}
      ensures Kept(old(files), files, fds) && fds <= old(fds) && files.Keys <= old(files).Keys
    {
      Queued(View(), {}, {}, loose);
      InUseOpen(View(), {}, {}, loose);
      Popped(View(), loose);
      var r := queue[|queue| - 1];
      queue := queue[..|queue| - 1];
      Drop(r, loose);
    }

    /** An entry that has left the queue leaves the tree, and the memory unless it is in use. */
    method Drop(r: Ref, ghost loose: set<int>)
      requires Inv({r}, {}, loose) && r in files && r in treed
      modifies this`tree, this`current, this`files, this`fds, this`treed, this`owner
      ensures Inv({}, {}, loose) && current == old(current) - 1 && Fewer(old(tree), tree)
        && files - {r} == old(files) - {r}
      ensures Kept(old(files), files, fds) && fds <= old(fds) && files.Keys <= old(files).Keys
    {
      InUseOpen(View(), {r}, {}, loose);
      if files[r].err == 0 && !files[r].isDir {
        Uproot(r, loose);
        GiveUp(r, loose);
      } else {
        Discard(r, loose);
      }
      InUseOpen(View(), {}, {}, loose);
    }

    /**
     * ngx_expire_old_cached_files (ngx_open_file_cache.c:1028-1076): with n == 0 the least recently used entry goes in
     * any case; then, and with n == 1 only, up to two that have been inactive too long.
     */
    method Expire(n: nat, now: int, ghost loose: set<int>)
      requires Inv({}, {}, loose) && n <= 1
      modifies this`tree, this`queue, this`current, this`files, this`fds, this`treed, this`owner
      ensures Inv({}, {}, loose) && queue <= old(queue) && |queue| + 3 >= |old(queue)| + n && Fewer(old(tree), tree)
      ensures current <= old(current) && (n == 0 && old(queue) != [] ==> current < old(current))
      ensures Kept(old(files), files, fds) && fds <= old(fds) && files.Keys <= old(files).Keys
      ensures Stale(old(files), old(queue), |queue|, 1 - n, now, inactive)
      ensures queue == [] || |queue| + 3 == |old(queue)| + n || Lively(old(files), queue, now, inactive)
    {
      InUseOpen(View(), {}, {}, loose);
      Queued(View(), {}, {}, loose);
      ghost var files0, queue0 := files, queue;
      var i := n;
      var more := true;
      while i < 3 && queue != [] && more
        invariant n <= i <= 3 && Inv({}, {}, loose) && |queue0| >= i - n && queue == queue0[..|queue0| - (i - n)]
          && current + (i - n) == old(current)
        invariant Kept(files0, files, fds) && fds <= old(fds) && files.Keys <= files0.Keys
        invariant SameFront(files0, files, queue) && Stale(files0, queue0, |queue|, 1 - n, now, inactive)
        invariant (i == 0 ==> more) && Fewer(old(tree), tree) && (!more ==> Lively(files0, queue, now, inactive))
        decreases 3 - i, more
      {
        var last := queue[|queue| - 1];
        if i != 0 && now - files[last].accessed <= inactive {
          more := false;
        } else {
          DropLast(loose, files0, queue0, i - n, now, 1 - n);
          i := i + 1;
        }
      }
    }

    method DropLast(ghost loose: set<int>, ghost files0: map<Ref, File>, ghost queue0: seq<Ref>, ghost gone: nat,
        ghost now: int, ghost forced: nat)
      requires Inv({}, {}, loose) && NoDup(queue0) && gone < |queue0| && queue == queue0[..|queue0| - gone]
      requires Kept(files0, files, fds) && SameFront(files0, files, queue)
        && Stale(files0, queue0, |queue|, forced, now, inactive)
      requires gone < forced || now - files[queue[|queue| - 1]].accessed > inactive
      modifies this`tree, this`queue, this`current, this`files, this`fds, this`treed, this`owner
      ensures Inv({}, {}, loose) && queue == queue0[..|queue0| - (gone + 1)] && current + 1 == old(current)
        && Fewer(old(tree), tree)
      ensures Kept(files0, files, fds) && fds <= old(fds) && files.Keys <= old(files).Keys
      ensures SameFront(files0, files, queue) && Stale(files0, queue0, |queue|, forced, now, inactive)
    {
      ghost var files1, queue1, fds1 := files, queue, fds;
      assert queue1[..|queue1| - 1] == queue0[..|queue0| - (gone + 1)];
      assert NoDup(queue1);
      Evict(loose);
      KeptTrans(files0, files1, fds1, files, fds);
      FrontStays(queue1, files0, files1, files, queue1[|queue1| - 1]);
      assert queue1[|queue1| - 1] == queue0[|queue|];
    }

    method Touch(r: Ref, f: File, ghost out: set<Ref>, ghost dying: set<Ref>, ghost loose: set<int>)
      requires Inv(out, dying, loose) && r in files
        && files[r] == f.(accessed := files[r].accessed, uses := files[r].uses)
      modifies this`files
      ensures Inv(out, dying, loose) && files == old(files)[r := f]
    {
      TouchOk(View(), r, f, out, dying, loose);
      files := files[r := f];
    }

    /** ngx_close_cached_file for an entry in the tree (ngx_open_file_cache.c:973-1004). */
    method Keep(r: Ref, minUses: nat, now: int, ghost loose: set<int>)
      requires Inv({}, {}, loose) && r in treed && r in files && (files[r].fd != INVALID ==> files[r].fd in fds)
      modifies this`files, this`queue, this`fds, this`owner
      ensures Inv({}, {}, loose) && current == old(current)
      ensures files - {r} == old(files) - {r} && r in files && files[r].count == old(files)[r].count
      ensures if old(files)[r].count > 0 || old(files)[r].uses >= minUses then
        files[r].fd == old(files)[r].fd && fds == old(fds)
              else files[r].fd == INVALID && fds == old(fds) - {old(files)[r].fd}
    {
      Touch(r, files[r].(accessed := now), {}, {}, loose);
      assert DatedOne(files[r], asked) by { Unpack(View(), {}, {}, loose); }
      Unqueue(r, loose);
      Enqueue(r, loose);
      if files[r].uses >= minUses || files[r].count > 0 {
        return;
      }
      if files[r].fd != INVALID {
        CloseFd(r, {}, {}, loose);
      } else {
        assert INVALID !in fds by { Unpack(View(), {}, {}, loose); }
      }
    }

    /** `c->file->count--` and the end of one use. */
    method Release(r: Ref, ghost loose: set<int>)
      requires Inv({}, {}, loose) && r in users
      modifies this`files, this`users
      ensures r in old(files) && old(files)[r].count > 0 && r in files
        && files == old(files)[r := old(files)[r].(count := old(files)[r].count - 1)]
      ensures users == old(users) - multiset{r} && files[r].fd in fds && (files[r].close <==> r !in treed)
      ensures Inv({}, {r}, loose) && (r in treed ==> Inv({}, {}, loose))
    {
      ReleaseOk(View(), r, loose);
      files := files[r := files[r].(count := files[r].count - 1)];
      users := users - multiset{r};
    }

    /** ngx_close_cached_file after a use has ended (ngx_open_file_cache.c:965-1008). */
    method CloseCached(r: Ref, minUses: nat, now: int, ghost loose: set<int>)
      requires Inv({}, {r}, loose) && r in files && files[r].fd in fds && (files[r].close <==> r !in treed)
        && (r in treed ==> Inv({}, {}, loose))
      modifies this`files, this`queue, this`fds, this`owner
      ensures Inv({}, {}, loose) && current == old(current) && files - {r} == old(files) - {r}
      ensures r in files <==> old(files)[r].count > 0 || !old(files)[r].close
      ensures r in files ==> files[r].count == old(files)[r].count
      ensures old(files)[r].fd !in fds <==>
        old(files)[r].count == 0 && (old(files)[r].close || old(files)[r].uses < minUses)
      ensures r in files ==> files[r].fd == if old(files)[r].fd in fds then old(files)[r].fd else INVALID
      ensures fds + {old(files)[r].fd} == old(fds)
    {
      if !files[r].close {
        Keep(r, minUses, now, loose);
      } else {
        GiveUp(r, loose);
      }
    }

    /** The end of one use, without the expiry that follows. */
    method Finish(r: Ref, minUses: nat, now: int, ghost loose: set<int>)
      requires Inv({}, {}, loose) && r in users
      modifies this`queue, this`files, this`fds, this`owner, this`users
      ensures Inv({}, {}, loose) && current == old(current) && users == old(users) - multiset{r} && r in old(files)
        && old(files)[r].count == old(users)[r]
      ensures old(files)[r].close ==> OverWith(r, old(files)[r].fd, old(users)[r], files, fds)
      ensures Served(users, old(files), files, fds)
    {
      ghost var files0, users0 := files, users;
      Unpack(View(), {}, {}, loose);
      Release(r, loose);
      ghost var files1, fds1 := files, fds;
      InUseOpen(View(), {}, {r}, loose);
      CloseCached(r, minUses, now, loose);
      StillServed(users0, users, files0, files1, fds1, files, fds, r);
    }

    lemma StillServed(users0: multiset<Ref>, users1: multiset<Ref>, files0: map<Ref, File>, files1: map<Ref, File>,
        fds1: set<int>, files2: map<Ref, File>, fds2: set<int>, r: Ref)
      requires Counted(files0, users0) && r in files0 && users1 == users0 - multiset{r} && files0[r].count > 0
      requires files1 == files0[r := files0[r].(count := files0[r].count - 1)] && Kept(files1, files1, fds1)
      requires files2 - {r} == files1 - {r} && fds2 + {files0[r].fd} == fds1 && INVALID !in fds1
      requires forall q :: q in files0 && q != r && files0[q].fd != INVALID ==> files0[q].fd != files0[r].fd
      requires files1[r].count > 0 ==> r in files2 && files2[r].fd == files1[r].fd && files2[r].fd in fds2
      ensures Served(users1, files0, files2, fds2)
    {
      forall q | q in users1
        ensures q in files0 && q in files2 && files2[q].fd == files0[q].fd && files2[q].fd in fds2
      {
        if q != r {
          assert q in files1 - {r} && files1[q].count > 0 && files1[q].fd in fds1;
          assert files1[q].fd in fds2 + {files0[r].fd};
        }
      }
    }

    lemma Tally(loose: set<int>)
      requires Inv({}, {}, loose)
      ensures Counted(files, users)
    {
      Unpack(View(), {}, {}, loose);
    }

    /**
     * ngx_open_file_cleanup: one use of an entry ends. Its descriptor is closed only when nobody uses it any more, and
     * a detached entry is freed exactly then.
     */
    method Cleanup(r: Ref, minUses: nat, now: int)
      requires Valid() && r in users
      modifies this`tree, this`queue, this`current, this`files, this`fds, this`treed, this`owner, this`users
      ensures Valid() && users == old(users) - multiset{r} && r in old(files)
      ensures old(files)[r].close ==> OverWith(r, old(files)[r].fd, old(users)[r], files, fds)
      ensures Served(users, old(files), files, fds)
    {
      ghost var files0, users0 := files, users;
      Finish(r, minUses, now, leaked);
      Tidy(r, now, users0, files0);
    }

    /** Entries expire after a use has ended. */
    method Tidy(ghost r: Ref, now: int, ghost users0: multiset<Ref>, ghost files0: map<Ref, File>)
      requires Inv({}, {}, leaked) && r in users0 && users == users0 - multiset{r} && r in files0
        && Served(users, files0, files, fds)
      requires files0[r].close ==> OverWith(r, files0[r].fd, users0[r], files, fds)
      modifies this`tree, this`queue, this`current, this`files, this`fds, this`treed, this`owner
      ensures Inv({}, {}, leaked) && current <= old(current) && Served(users, files0, files, fds)
      ensures files0[r].close ==> OverWith(r, files0[r].fd, users0[r], files, fds)
    {
      ghost var files1, fds1 := files, fds;
      Tally(leaked);
      Expire(1, now, leaked);
      Ended(r, files0[r].close, users0, users, files0, files1, fds1, files, fds);
    }

    /**
     * ngx_open_and_stat_file (ngx_open_file_cache.c:773-879). `fd` and `uniq` are those of the entry being tested
     * again, if any. Besides those of the entries, at most the descriptor returned is open afterwards.
     */
    method OpenAndStat(fd: int, uniq: int, testDir: bool, os: Os, ghost req: Request, ghost out: set<Ref>,
        ghost loose: set<int>) returns (of: Of)
      requires Inv(out, {}, loose) && Sane(os, fds) && (fd != INVALID ==> fd in fds)
      requires req.name in tree ==> tree[req.name] in out
      modifies this`fds, this`asked
      ensures fds == Plus(old(fds), of.fd, fd) && Inv(out, {}, Plus(loose, of.fd, fd))
      ensures of == Found(fd, uniq, testDir, os)
      ensures of.fd == fd || of.fd == INVALID || of.fd !in old(fds)
      ensures fds <= old(fds) + Opened(os)
      ensures asked == old(asked)[req.name := Look(req.now, of, req.symlinks)]
    {
      of := Probe(fd, uniq, testDir, os, out, loose);
      AskOk(View(), req.name, Look(req.now, of, req.symlinks), out, Plus(loose, of.fd, fd));
      asked := asked[req.name := Look(req.now, of, req.symlinks)];
    }

    /** The calls, and what they say. */
    method Probe(fd: int, uniq: int, testDir: bool, os: Os, ghost out: set<Ref>, ghost loose: set<int>)
        returns (of: Of)
      requires Inv(out, {}, loose) && Sane(os, fds) && (fd != INVALID ==> fd in fds)
      modifies this`fds
      ensures fds == Plus(old(fds), of.fd, fd) && Inv(out, {}, Plus(loose, of.fd, fd))
      ensures of == Found(fd, uniq, testDir, os)
      ensures of.fd == fd || of.fd == INVALID || of.fd !in old(fds)
      ensures fds <= old(fds) + Opened(os)
    {
      if fd != INVALID {
        match os.stat
        case Errno(err) => return Of(false, INVALID, uniq, err, false);
        case Got(fi) =>
          if uniq == fi.uniq {
            return Of(true, fd, fi.uniq, 0, fi.isDir);
          }
      } else if testDir {
        match os.stat
        case Errno(err) => return Of(false, INVALID, uniq, err, false);
        case Got(fi) =>
          if fi.isDir {
            return Of(true, INVALID, fi.uniq, 0, true);
          }
      }
      match os.open
      case Errno(err) => return Of(false, INVALID, uniq, err, false);
      case Got(d) =>
        LooseOpened(View(), d, out, {}, loose);
        fds := fds + {d};
        match os.fstat {
          case Errno(_) =>
            LooseClosed(View(), d, out, {}, loose + {d});
            fds := fds - {d};
            return Of(false, INVALID, uniq, 0, false);
          case Got(fi) =>
            if fi.isDir {
              LooseClosed(View(), d, out, {}, loose + {d});
              fds := fds - {d};
              return Of(true, INVALID, fi.uniq, 0, true);
            }
            return Of(true, d, fi.uniq, 0, false);
        }
    }

    /** This is what the system was just asked, and said. */
    ghost predicate Recorded(of: Of, req: Request)
      reads this
    {
      req.name in asked && asked[req.name] == Look(req.now, of, req.symlinks)
    }

    /** `update` and `found` (ngx_open_file_cache.c:393-447). */
    method Update(r: Ref, of: Of, req: Request, ghost loose: set<int>) returns (a: Answer)
      requires Inv({r}, {}, loose) && r in files && r in treed && files[r].name == req.name && Recorded(of, req)
      requires if of.err == 0 && !of.isDir then of.fd >= 0 && (of.fd == files[r].fd || of.fd in loose)
        else of.fd == INVALID && files[r].count == 0
      modifies this`files, this`queue, this`users, this`owner
      ensures Inv({}, {}, Rest(loose, old(files)[r].fd, of.fd)) && a == AnswerOf(of, r) && users == Use(old(users), a)
      ensures files == old(files)[r := Updated(old(files)[r], of, req)] && queue == [r] + old(queue)
    {
      var f := Updated(files[r], of, req);
      a := AnswerOf(of, r);
      UpdatedTells(files[r], of, req);
      ghost var rest := Rest(loose, files[r].fd, of.fd);
      assert Cached(files[r]) by { Unpack(View(), {r}, {}, loose); }
      Adopt(r, f, Use(users, a), loose);
      Enqueue(r, rest);
    }

    method Adopt(r: Ref, f: File, ghost more: multiset<Ref>, ghost loose: set<int>)
      requires Inv({r}, {}, loose) && r in files && f.name == files[r].name && Cached(f)
      requires f.fd == files[r].fd || f.fd == INVALID || f.fd in loose
      requires (f.count == files[r].count && more == users)
        || (f.count == files[r].count + 1 && more == users + multiset{r})
      modifies this`files, this`users, this`owner
      ensures Inv({r}, {}, Rest(loose, old(files)[r].fd, f.fd)) && files == old(files)[r := f] && users == more
    {
      ghost var s := Adopted(View(), r, f, more);
      AdoptOk(View(), r, f, more, loose);
      users := more;
      owner := Exchange(owner, r, files[r].fd, f.fd);
      files := files[r := f];
      assert View() == s;
    }

    /** A valid entry answers by itself (ngx_open_file_cache.c:236-264, 422-447). */
    method Hit(r: Ref, now: int, ghost loose: set<int>) returns (a: Answer)
      requires Inv({r}, {}, loose) && r in files && r in treed && (Plain(files[r]) ==> files[r].fd in fds)
        && DatedOne(files[r], asked)
      modifies this`files, this`queue, this`users
      ensures Inv({}, {}, loose) && users == Use(old(users), a) && r in files && files[r].fd == old(files)[r].fd
      ensures Held(old(files), files, fds) && StillOpen(old(files), fds)
      ensures files[r] == Shared(old(files)[r], now) && queue == [r] + old(queue) && a == AnswerFrom(There(r, files[r]))
    {
      var f := files[r];
      a := if f.err != 0 then Failure(f.err) else if f.isDir then Directory else Serving(f.fd, r);
      var f' := Shared(f, now);
      assert INVALID !in fds && Cached(f) by { Unpack(View(), {r}, {}, loose); }
      Share(r, f', Use(users, a), loose);
      Enqueue(r, loose);
    }

    method Share(r: Ref, f: File, ghost more: multiset<Ref>, ghost loose: set<int>)
      requires Inv({r}, {}, loose) && r in files && f.name == files[r].name && Cached(f) && f.fd == files[r].fd
      requires (f.count == files[r].count && more == users)
        || (f.count == files[r].count + 1 && more == users + multiset{r})
      modifies this`files, this`users
      ensures Inv({r}, {}, loose) && files == old(files)[r := f] && users == more && Held(old(files), files, fds)
        && StillOpen(old(files), fds)
    {
      InUseOpen(View(), {r}, {}, loose);
      HeldExcept(files, files[r := f], fds, r, f);
      UseOk(View(), r, f, more, loose);
      users := more;
      files := files[r := f];
    }

    /** `failed` with an entry: it leaves the tree, and goes unless somebody uses it (ngx_open_file_cache.c:451-472). */
    method Abandon(r: Ref, ghost loose: set<int>)
      requires Inv({r}, {}, loose) && r in files && r in treed
      modifies this`tree, this`current, this`files, this`fds, this`treed, this`owner
      ensures Inv({}, {}, loose) && Kept(old(files), files, fds) && files.Keys <= old(files).Keys
        && current == old(current) - 1
      ensures tree == old(tree) - {old(files)[r].name} && fds <= old(fds)
    {
      InUseOpen(View(), {r}, {}, loose);
      if files[r].err == 0 && !files[r].isDir {
        Uproot(r, loose);
        GiveUp(r, loose);
      } else {
        Discard(r, loose);
      }
      InUseOpen(View(), {}, {}, loose);
    }

    /**
     * `create` (ngx_open_file_cache.c:356-387): a new entry; `room` is what ngx_alloc returns, and `junk` what it
     * leaves in unset fields.
     */
    method Insert(name: string, r: Ref, isError: bool, junk: (int, bool, bool), ghost loose: set<int>)
      requires Inv({}, {}, loose) && name !in tree && r !in files
      modifies this`tree, this`current, this`files, this`treed
      ensures Inv({r}, {}, loose) && files == old(files)[r := Blank(name, isError, junk)] && r in treed
        && current == old(current) + 1
      ensures tree == old(tree)[name := r]
    {
      var f := Blank(name, isError, junk);
      ghost var s := Planted(View(), r, f);
      PlantOk(View(), r, f, loose);
      tree := tree[name := r];
      current := current + 1;
      files := files[r := f];
      treed := treed + {r};
      assert View() == s;
    }

    /** ngx_close_file on a descriptor no entry holds. */
    method CloseLoose(fd: int, ghost out: set<Ref>, ghost loose: set<int>)
      requires Inv(out, {}, loose) && (fd == INVALID || fd in loose)
      modifies this`fds
      ensures Inv(out, {}, loose - {fd}) && fds == old(fds) - {fd}
    {
      assert INVALID !in fds && loose <= fds by { Unpack(View(), out, {}, loose); }
      if fd != INVALID {
        LooseClosed(View(), fd, out, {}, loose);
        fds := fds - {fd};
      } else {
        assert loose - {fd} == loose && fds - {fd} == fds;
      }
    }

    lemma Apart(out: set<Ref>, dying: set<Ref>, loose: set<int>)
      requires Inv(out, dying, loose)
      ensures INVALID !in fds && loose <= fds
        && forall r :: r in files && files[r].fd != INVALID ==> files[r].fd in fds && files[r].fd !in loose
    {
      Unpack(View(), out, dying, loose);
    }

    /** An entry without descriptor takes the result. */
    method Fill(r: Ref, of: Of, req: Request, ghost loose: set<int>) returns (a: Answer)
      requires Inv({r}, {}, Plus(loose, of.fd, INVALID)) && r in files && r in treed && files[r].fd == INVALID
        && files[r].count == 0 && files[r].name == req.name && Recorded(of, req)
      requires INVALID !in loose && of.fd !in loose && of.fd >= INVALID
        && (of.fd == INVALID <==> of.err != 0 || of.isDir)
      modifies this`files, this`queue, this`users, this`owner
      ensures Inv({}, {}, loose) && a == AnswerOf(of, r) && users == Use(old(users), a) && Kept(old(files), files, fds)
        && r in files
      ensures files == old(files)[r := Updated(old(files)[r], of, req)] && queue == [r] + old(queue)
    {
      ghost var files0 := files;
      a := Update(r, of, req, Plus(loose, of.fd, INVALID));
      PutBack(loose, INVALID, of.fd);
      InUseOpen(View(), {}, {}, loose);
      KeptExcept(files0, files, fds, r, files[r]);
    }

    /** An entry too little used to be kept open is opened again (ngx_open_file_cache.c:213-224). */
    method Reopen(r: Ref, req: Request, os: Os, ghost after: After, ghost told: Of) returns (a: Answer)
      requires Inv({r}, {}, leaked) && current <= max && r in files && r in treed && Plain(files[r])
        && files[r].fd == INVALID && files[r].count == 0 && Sane(os, fds)
      requires files[r].name == req.name && req.name in tree && tree[req.name] == r
      requires told == Found(INVALID, req.uniq, req.testDir, os) && after == Taken(r, files[r], told, req)
      modifies this`tree, this`queue, this`current, this`files, this`fds, this`treed, this`owner, this`users, this`asked
      ensures Inv({}, {}, leaked) && current <= max && users == Use(old(users), a) && Kept(old(files), files, fds)
      ensures Settled(tree, queue, files, req.name, after, a) && Others(old(tree), tree, req.name)
        && fds <= old(fds) + Opened(os)
      ensures asked == old(asked)[req.name := Look(req.now, told, req.symlinks)]
    {
      Apart({r}, {}, leaked);
      FoundNew(req.uniq, req.testDir, os, req.errors, fds);
      var of := OpenAndStat(INVALID, req.uniq, req.testDir, os, req, {r}, leaked);
      a := Accept(r, of, req, leaked);
    }

    /** An entry without descriptor takes the result, or leaves the cache with it. */
    method Accept(r: Ref, of: Of, req: Request, ghost loose: set<int>) returns (a: Answer)
      requires Inv({r}, {}, Plus(loose, of.fd, INVALID)) && current <= max && r in files && r in treed
        && files[r].fd == INVALID && files[r].count == 0
      requires files[r].name == req.name && req.name in tree && tree[req.name] == r && INVALID !in loose
        && of.fd !in loose && of.fd >= INVALID
      requires if Cacheable(of, req.errors) then of.fd == INVALID <==> of.err != 0 || of.isDir else of.fd == INVALID
      requires Recorded(of, req)
      modifies this`tree, this`queue, this`current, this`files, this`fds, this`treed, this`owner, this`users
      ensures Inv({}, {}, loose) && current <= max && users == Use(old(users), a) && Kept(old(files), files, fds)
      ensures Settled(tree, queue, files, req.name, Taken(r, old(files)[r], of, req), a)
        && Others(old(tree), tree, req.name) && fds <= old(fds)
    {
      if Cacheable(of, req.errors) {
        a := Fill(r, of, req, loose);
      } else {
        a := Lose(r, of, req, loose);
      }
    }

    /** The least recently used entry makes room (ngx_open_file_cache.c:358-360). */
    method MakeRoom(now: int, ghost loose: set<int>)
      requires Inv({}, {}, loose) && current <= max && max >= 1
      modifies this`tree, this`queue, this`current, this`files, this`fds, this`treed, this`owner
      ensures fds <= old(fds) && Inv({}, {}, loose) && current < max && Kept(old(files), files, fds)
        && files.Keys <= old(files).Keys && Fewer(old(tree), tree)
    {
      Queued(View(), {}, {}, loose);
      InUseOpen(View(), {}, {}, loose);
      if current >= max {
        Expire(0, now, loose);
      }
    }

    /** A new entry for what was found (ngx_open_file_cache.c:356-447). */
    method Create(req: Request, of: Of, room: Option<Ref>, junk: (int, bool, bool), ghost loose: set<int>)
        returns (a: Answer)
      requires Inv({}, {}, Plus(loose, of.fd, INVALID)) && current <= max && max >= 1 && req.name !in tree
        && (room.Some? ==> room.value !in files) && Recorded(of, req)
      requires INVALID !in loose && of.fd !in loose && of.fd >= INVALID
        && (of.fd == INVALID <==> of.err != 0 || of.isDir)
      modifies this`tree, this`queue, this`current, this`files, this`fds, this`treed, this`owner, this`users
      ensures Inv({}, {}, loose) && current <= max && users == Use(old(users), a) && Kept(old(files), files, fds)
      ensures Settled(tree, queue, files, req.name, Made(of, req, room, junk), a) && Others(old(tree), tree, req.name)
        && fds <= old(fds)
    {
      ghost var files0 := files;
      MakeRoom(req.now, Plus(loose, of.fd, INVALID));
      ghost var files1, fds1 := files, fds;
      match room {
        case None =>
          a := Failure(of.err);
          CloseLoose(of.fd, {}, Plus(loose, of.fd, INVALID));
          assert Plus(loose, of.fd, INVALID) - {of.fd} == loose;
          InUseOpen(View(), {}, {}, loose);
          KeptTrans(files0, files1, fds1, files, fds);
        case Some(r) =>
          a := Grow(req, of, r, junk, loose);
          KeptTrans(files0, files1, fds1, files, fds);
      }
    }

    method Grow(req: Request, of: Of, r: Ref, junk: (int, bool, bool), ghost loose: set<int>) returns (a: Answer)
      requires Inv({}, {}, Plus(loose, of.fd, INVALID)) && current < max && req.name !in tree && r !in files
        && Recorded(of, req)
      requires INVALID !in loose && of.fd !in loose && of.fd >= INVALID
        && (of.fd == INVALID <==> of.err != 0 || of.isDir)
      modifies this`tree, this`queue, this`current, this`files, this`fds, this`treed, this`owner, this`users
      ensures Inv({}, {}, loose) && current <= max && users == Use(old(users), a) && Kept(old(files), files, fds)
      ensures Settled(tree, queue, files, req.name, Made(of, req, Some(r), junk), a)
        && Others(old(tree), tree, req.name) && fds <= old(fds)
    {
      ghost var files0 := files;
      Insert(req.name, r, of.err != 0, junk, Plus(loose, of.fd, INVALID));
      ghost var files1 := files;
      a := Fill(r, of, req, loose);
      Grown(files0, files1, files, fds, r);
    }

    lemma Grown(files0: map<Ref, File>, files1: map<Ref, File>, files2: map<Ref, File>, fds2: set<int>, r: Ref)
      requires r !in files0 && r in files1 && files1 == files0[r := files1[r]] && Kept(files1, files2, fds2)
      ensures Kept(files0, files2, fds2)
    {
      forall q | q in files0 && files0[q].count > 0 ensures q in files1 && files1[q] == files0[q] {}
    }

    /** The same file was found (ngx_open_file_cache.c:305-314): the old descriptor is lost if there is a new one. */
    method Refresh(r: Ref, of: Of, req: Request) returns (a: Answer)
      requires r in files && Inv({r}, {}, Plus(leaked, of.fd, files[r].fd)) && r in treed && files[r].fd in fds
        && files[r].fd !in leaked && INVALID !in leaked
      requires of.err == 0 && !of.isDir && of.fd >= 0 && of.fd !in leaked && files[r].fd >= 0
      requires files[r].name == req.name && Recorded(of, req)
      modifies this`files, this`queue, this`users, this`owner, this`leaked
      ensures Inv({}, {}, leaked)
        && leaked == (if of.fd == old(files)[r].fd then old(leaked) else old(leaked) + {old(files)[r].fd})
      ensures a == Serving(of.fd, r) && users == Use(old(users), a) && current == old(current)
      ensures files == old(files)[r := Updated(old(files)[r], of, req)] && queue == [r] + old(queue)
      ensures StillOpen(old(files), fds) && (of.fd == old(files)[r].fd ==> Held(old(files), files, fds))
    {
      ghost var files0, was := files, files[r].fd;
      InUseOpen(View(), {r}, {}, Plus(leaked, of.fd, was));
      a := Update(r, of, req, Plus(leaked, of.fd, was));
      PutBack(leaked, was, of.fd);
      HeldExcept(files0, files, fds, r, files[r]);
      leaked := if of.fd == was then leaked else leaked + {was};
    }

    /** What Create and Fill need to know of a result. */
    predicate Fresh(of: Of, loose: set<int>) {
      INVALID !in loose && of.fd !in loose && of.fd >= INVALID && (of.fd == INVALID <==> of.err != 0 || of.isDir)
    }

    /** Something else was found under the name of an entry nobody uses (ngx_open_file_cache.c:327-337). */
    method Swap(r: Ref, of: Of, req: Request, ghost loose: set<int>) returns (a: Answer)
      requires Inv({r}, {}, Plus(loose, of.fd, INVALID)) && r in files && r in treed && files[r].count == 0
        && files[r].fd in fds && Fresh(of, loose) && files[r].name == req.name && Recorded(of, req)
      modifies this`queue, this`files, this`fds, this`owner, this`users
      ensures Inv({}, {}, loose) && current == old(current) && users == Use(old(users), a)
        && Kept(old(files), files, fds)
      ensures files == old(files)[r := Updated(old(files)[r], of, req)] && queue == [r] + old(queue)
        && a == AnswerOf(of, r) && fds <= old(fds)
    {
      ghost var files0, more := files, Plus(loose, of.fd, INVALID);
      CloseFd(r, {r}, {}, more);
      ghost var files1, fds1 := files, fds;
      InUseOpen(View(), {r}, {}, more);
      KeptExcept(files0, files, fds, r, files[r]);
      a := Fill(r, of, req, loose);
      KeptTrans(files0, files1, fds1, files, fds);
    }

    /**
     * Something else was found under the name of an entry in use: it is detached, and a new one made
     * (ngx_open_file_cache.c:339-345).
     */
    method Supersede(r: Ref, of: Of, req: Request, room: Option<Ref>, junk: (int, bool, bool), ghost loose: set<int>)
        returns (a: Answer)
      requires Inv({r}, {}, Plus(loose, of.fd, INVALID)) && current <= max && max >= 1 && r in files && r in treed
        && Plain(files[r]) && files[r].count > 0
      requires files[r].name == req.name && (room.Some? ==> room.value !in files) && Fresh(of, loose)
        && Recorded(of, req)
      modifies this`tree, this`queue, this`current, this`files, this`fds, this`treed, this`owner, this`users
      ensures Inv({}, {}, loose) && current <= max && users == Use(old(users), a) && Kept(old(files), files, fds)
      ensures Settled(tree, queue, files, req.name, Made(of, req, room, junk), a) && Others(old(tree), tree, req.name)
        && fds <= old(fds)
    {
      ghost var files0, more := files, Plus(loose, of.fd, INVALID);
      InUseOpen(View(), {r}, {}, more);
      Uproot(r, more);
      Leaving(View(), r, more);
      ghost var files1, fds1 := files, fds;
      a := Create(req, of, room, junk, loose);
      KeptTrans(files0, files1, fds1, files, fds);
    }

    /** What becomes of an entry tested again (ngx_open_file_cache.c:291-345). */
    method Resolve(r: Ref, of: Of, req: Request, room: Option<Ref>, junk: (int, bool, bool)) returns (a: Answer)
      requires r in files && r in treed && Cached(files[r]) && files[r].name == req.name && req.name in tree
        && tree[req.name] == r && Cacheable(of, req.errors) && Recorded(of, req)
      requires (Plain(files[r]) ==> files[r].fd in fds && files[r].fd !in leaked && files[r].fd >= 0)
      requires Inv({r}, {}, Plus(leaked, of.fd, files[r].fd)) && current <= max && max >= 1 && Fresh(of, leaked)
        && (room.Some? ==> room.value !in files)
      requires of.fd == files[r].fd && of.fd != INVALID ==> of.err == 0 && of.uniq == files[r].uniq && !of.isDir
      modifies this`tree, this`queue, this`current, this`files, this`fds, this`treed, this`owner, this`users,
        this`leaked
      ensures Inv({}, {}, leaked) && current <= max && users == Use(old(users), a)
      ensures leaked == if Doubled(old(files)[r], of) then old(leaked) + {old(files)[r].fd} else old(leaked)
      ensures StillOpen(old(files), fds) && (!Doubled(old(files)[r], of) ==> Held(old(files), files, fds))
      ensures Settled(tree, queue, files, req.name, if Replaced(old(files)[r], of) then Made(of, req, room, junk)
        else There(r, Updated(old(files)[r], of, req)), a)
      ensures Others(old(tree), tree, req.name) && fds <= old(fds)
    {
      ghost var files0 := files;
      var f := files[r];
      if Plain(f) && of.err == 0 && !of.isDir && of.uniq == f.uniq {
        a := Refresh(r, of, req);
      } else {
        a := Renew(r, of, req, room, junk);
        KeptHeld(files0, files, fds);
      }
    }

    /** The entry was none for a file, or something else was found under its name (ngx_open_file_cache.c:296-345). */
    method Renew(r: Ref, of: Of, req: Request, room: Option<Ref>, junk: (int, bool, bool)) returns (a: Answer)
      requires r in files && r in treed && Cached(files[r]) && files[r].name == req.name && req.name in tree
        && tree[req.name] == r && Cacheable(of, req.errors) && Recorded(of, req)
      requires (Plain(files[r]) ==> files[r].fd in fds && files[r].fd !in leaked && files[r].fd >= 0)
      requires Inv({r}, {}, Plus(leaked, of.fd, files[r].fd)) && current <= max && max >= 1 && Fresh(of, leaked)
        && (room.Some? ==> room.value !in files)
      requires of.fd == files[r].fd && of.fd != INVALID ==> of.err == 0 && of.uniq == files[r].uniq && !of.isDir
      requires !(Plain(files[r]) && of.err == 0 && !of.isDir && of.uniq == files[r].uniq)
      modifies this`tree, this`queue, this`current, this`files, this`fds, this`treed, this`owner, this`users
      ensures Inv({}, {}, leaked) && current <= max && users == Use(old(users), a) && Kept(old(files), files, fds)
      ensures Settled(tree, queue, files, req.name, if Replaced(old(files)[r], of) then Made(of, req, room, junk)
        else There(r, Updated(old(files)[r], of, req)), a)
      ensures Others(old(tree), tree, req.name) && fds <= old(fds)
    {
      var f := files[r];
      if f.err != 0 || f.isDir {
        a := Fill(r, of, req, leaked);
      } else if f.count == 0 {
        a := Swap(r, of, req, leaked);
      } else {
        a := Supersede(r, of, req, room, junk, leaked);
      }
    }

    /** A result that is not to be cached. */
    method Lose(r: Ref, of: Of, req: Request, ghost loose: set<int>) returns (a: Answer)
      requires Inv({r}, {}, loose) && r in files && r in treed && files[r].name == req.name
      modifies this`tree, this`current, this`files, this`fds, this`treed, this`owner
      ensures Inv({}, {}, loose) && Kept(old(files), files, fds) && current <= old(current) && a == Failure(of.err)
        && fds <= old(fds)
      ensures Settled(tree, queue, files, req.name, Gone(of.err), a) && Others(old(tree), tree, req.name)
    {
      Abandon(r, loose);
      a := Failure(of.err);
    }

    /** An entry is tested again (ngx_open_file_cache.c:271-345). */
    method Retest(r: Ref, req: Request, os: Os, room: Option<Ref>, junk: (int, bool, bool)) returns (a: Answer)
      requires Inv({r}, {}, leaked) && current <= max && max >= 1 && r in files && r in treed
        && files[r].name == req.name
      requires req.name in tree && tree[req.name] == r && (Plain(files[r]) ==> files[r].fd != INVALID)
      requires Sane(os, fds) && (room.Some? ==> room.value !in files)
      requires files[r].fd != INVALID && os.stat.Got? && os.stat.value.uniq == files[r].uniq ==> !os.stat.value.isDir
      modifies this`tree, this`queue, this`current, this`files, this`fds, this`treed, this`owner, this`users,
        this`leaked, this`asked
      ensures Inv({}, {}, leaked) && current <= max && users == Use(old(users), a)
      ensures leaked == if Flip(old(files)[r], os) then old(leaked) + {old(files)[r].fd} else old(leaked)
      ensures StillOpen(old(files), fds) && (!Flip(old(files)[r], os) ==> Held(old(files), files, fds))
      ensures Settled(tree, queue, files, req.name, Retested(r, old(files)[r], req, os, room, junk), a)
        && Others(old(tree), tree, req.name) && fds <= old(fds) + Opened(os)
      ensures var f := old(files)[r];
        asked == old(asked)[req.name := Look(req.now, Found(f.fd, f.uniq, f.isDir || req.testDir, os), req.symlinks)]
    {
      ghost var files0 := files;
      Apart({r}, {}, leaked);
      Rank(r);
      var f := files[r];
      FoundFacts(f, f.isDir || req.testDir, os, req.errors, fds);
      var of := OpenAndStat(f.fd, f.uniq, f.isDir || req.testDir, os, req, {r}, leaked);
      RetestedAs(r, f, req, os, room, junk, of);
      a := Decide(r, of, req, room, junk);
    }

    /** A result to cache or not. */
    method Decide(r: Ref, of: Of, req: Request, room: Option<Ref>, junk: (int, bool, bool)) returns (a: Answer)
      requires r in files && r in treed && Cached(files[r]) && files[r].name == req.name && req.name in tree
        && tree[req.name] == r && Recorded(of, req)
      requires (Plain(files[r]) ==> files[r].fd in fds && files[r].fd !in leaked && files[r].fd >= 0)
        && INVALID !in leaked && of.fd !in leaked && of.fd >= INVALID
      requires if Cacheable(of, req.errors) then of.fd == INVALID <==> of.err != 0 || of.isDir else of.fd == INVALID
      requires Inv({r}, {}, Plus(leaked, of.fd, files[r].fd)) && current <= max && max >= 1
        && (room.Some? ==> room.value !in files)
      requires of.fd == files[r].fd && of.fd != INVALID ==> of.err == 0 && of.uniq == files[r].uniq && !of.isDir
      modifies this`tree, this`queue, this`current, this`files, this`fds, this`treed, this`owner, this`users,
        this`leaked
      ensures Inv({}, {}, leaked) && current <= max && users == Use(old(users), a)
      ensures var d := Cacheable(of, req.errors) && Doubled(old(files)[r], of);
        leaked == (if d then old(leaked) + {old(files)[r].fd} else old(leaked)) && (!d ==> Held(old(files), files, fds))
      ensures StillOpen(old(files), fds) && Others(old(tree), tree, req.name) && fds <= old(fds)
      ensures Settled(tree, queue, files, req.name, if !Cacheable(of, req.errors) then Gone(of.err)
        else if Replaced(old(files)[r], of) then Made(of, req, room, junk)
          else There(r, Updated(old(files)[r], of, req)), a)
    {
      ghost var files0 := files;
      if !Cacheable(of, req.errors) {
        a := Lose(r, of, req, leaked);
        KeptHeld(files0, files, fds);
      } else {
        a := Resolve(r, of, req, room, junk);
      }
    }

    lemma Rank(r: Ref)
      requires Inv({r}, {}, leaked) && r in files && r in treed
      ensures Cached(files[r])
    {
      Unpack(View(), {r}, {}, leaked);
    }

    /** The entry for a name, taken from the queue (ngx_open_file_cache.c:205-211). */
    method Fetch(name: string) returns (r: Ref)
      requires Valid() && name in tree
      modifies this`files, this`queue
      ensures Inv({r}, {}, leaked) && r == tree[name] && r in treed && r in files && r in old(files)
      ensures files == old(files)[r := old(files)[r].(uses := old(files)[r].uses + 1)] && files[r].name == name
        && Cached(files[r]) && DatedOne(files[r], asked)
    {
      r := tree[name];
      assert r in treed && r in files && files[r].name == name by { Unpack(View(), {}, {}, leaked); }
      Touch(r, files[r].(uses := files[r].uses + 1), {}, {}, leaked);
      assert DatedOne(files[r], asked) by { Unpack(View(), {}, {}, leaked); }
      Unqueue(r, leaked);
      Rank(r);
    }

    /** The entry answers, is opened again, or is tested again. */
    method Consult(r: Ref, req: Request, os: Os, room: Option<Ref>, junk: (int, bool, bool), ghost after: After,
        ghost told: Of, ghost flips: bool, ghost ready: bool) returns (a: Answer)
      requires Inv({r}, {}, leaked) && current <= max && max >= 1 && r in files && r in treed
        && files[r].name == req.name && Cached(files[r]) && DatedOne(files[r], asked)
      requires req.name in tree && tree[req.name] == r
      requires Sane(os, fds) && (room.Some? ==> room.value !in files)
      requires files[r].fd != INVALID && os.stat.Got? && os.stat.value.uniq == files[r].uniq ==> !os.stat.value.isDir
      requires after == Consulted(r, files[r], req, os, room, junk) && told == Heard(files[r], req, os)
      requires (flips <==> Flip(files[r], os) && !Current(files[r], req)) && (ready <==> Answering(files[r], req))
      modifies this`tree, this`queue, this`current, this`files, this`fds, this`treed, this`owner, this`users,
        this`leaked, this`asked
      ensures Inv({}, {}, leaked) && current <= max && users == Use(old(users), a)
      ensures leaked == if flips then old(leaked) + {old(files)[r].fd} else old(leaked)
      ensures StillOpen(old(files), fds) && (!flips ==> Held(old(files), files, fds))
      ensures Settled(tree, queue, files, req.name, after, a) && Others(old(tree), tree, req.name)
        && fds <= old(fds) + Opened(os)
      ensures asked == if ready then old(asked) else old(asked)[req.name := Look(req.now, told, req.symlinks)]
    {
      ghost var files0 := files;
      var f := files[r];
      Apart({r}, {}, leaked);
      if f.fd == INVALID && f.err == 0 && !f.isDir {
        a := Reopen(r, req, os, after, told);
        KeptHeld(files0, files, fds);
      } else if Current(f, req) {
        a := Hit(r, req.now, leaked);
      } else {
        a := Retest(r, req, os, room, junk);
      }
    }

    /** A name not in the cache (ngx_open_file_cache.c:348-447). */
    method Introduce(req: Request, os: Os, room: Option<Ref>, junk: (int, bool, bool), ghost after: After,
        ghost told: Of) returns (a: Answer)
      requires Valid() && req.name !in tree && Sane(os, fds) && (room.Some? ==> room.value !in files)
      requires told == Found(INVALID, req.uniq, req.testDir, os) && after == Newly(told, req, room, junk)
      modifies this`tree, this`queue, this`current, this`files, this`fds, this`treed, this`owner, this`users, this`asked
      ensures Valid() && users == Use(old(users), a) && Kept(old(files), files, fds)
      ensures Settled(tree, queue, files, req.name, after, a) && Others(old(tree), tree, req.name)
        && fds <= old(fds) + Opened(os)
      ensures asked == old(asked)[req.name := Look(req.now, told, req.symlinks)]
    {
      Apart({}, {}, leaked);
      FoundNew(req.uniq, req.testDir, os, req.errors, fds);
      var of := OpenAndStat(INVALID, req.uniq, req.testDir, os, req, {}, leaked);
      a := Admit(of, req, room, junk);
    }

    /** A result for a name not in the cache, to cache or not. */
    method Admit(of: Of, req: Request, room: Option<Ref>, junk: (int, bool, bool)) returns (a: Answer)
      requires Inv({}, {}, Plus(leaked, of.fd, INVALID)) && current <= max && max >= 1 && req.name !in tree
        && (room.Some? ==> room.value !in files)
      requires INVALID !in leaked && of.fd !in leaked && of.fd >= INVALID && Recorded(of, req)
      requires if Cacheable(of, req.errors) then of.fd == INVALID <==> of.err != 0 || of.isDir else of.fd == INVALID
      modifies this`tree, this`queue, this`current, this`files, this`fds, this`treed, this`owner, this`users
      ensures Inv({}, {}, leaked) && current <= max && users == Use(old(users), a) && Kept(old(files), files, fds)
      ensures Settled(tree, queue, files, req.name, Newly(of, req, room, junk), a) && Others(old(tree), tree, req.name)
        && fds <= old(fds)
    {
      if !Cacheable(of, req.errors) {
        InUseOpen(View(), {}, {}, leaked);
        a := Failure(of.err);
      } else {
        a := Create(req, of, room, junk, leaked);
      }
    }

    /**
     * ngx_open_cached_file with a cache (ngx_open_file_cache.c:196-482). `os` is what the system calls answer, `room`
     * what ngx_alloc returns and `junk` what it leaves in unset fields. Every descriptor open afterwards belongs to one
     * entry; only when the name flips between two files during the call is the entry's old descriptor left to nobody.
     */
    method OpenCached(req: Request, os: Os, room: Option<Ref>, junk: (int, bool, bool)) returns (a: Answer)
      requires Valid() && Sane(os, fds) && (room.Some? ==> room.value !in files)
      requires
        req.name in tree && tree[req.name] in files && files[tree[req.name]].fd != INVALID && os.stat.Got?
        && os.stat.value.uniq == files[tree[req.name]].uniq ==>
        !os.stat.value.isDir
      modifies this`tree, this`queue, this`current, this`files, this`fds, this`treed, this`owner, this`users,
        this`leaked, this`asked
      ensures Valid() && users == Use(old(users), a)
      ensures Settled(tree, queue, files, req.name, old(Result(req, os, room, junk)), a)
        && Others(old(tree), tree, req.name) && fds <= old(fds) + Opened(os)
      ensures a.Serving? ==> a.fd in fds
      ensures leaked == if old(Flips(req, os)) then old(leaked) + {old(files[tree[req.name]].fd)} else old(leaked)
      ensures old(Flips(req, os)) ==> old(files[tree[req.name]].fd) !in old(leaked)
      ensures StillOpen(old(files), fds) && (!old(Flips(req, os)) ==> Held(old(files), files, fds))
      ensures asked == if old(Ready(req)) then old(asked)
        else old(asked)[req.name := Look(req.now, old(Told(req, os)), req.symlinks)]
      ensures old(Ready(req)) ==> a == AnswerOf(old(asked)[req.name].of, old(tree)[req.name])
      ensures req.name in tree ==>
        UsedAt(files, tree[req.name], req.now, Uses(old(tree), old(files), req.name, tree[req.name]))
    {
      ReadyAnswer(req, os, room, junk);
      ResultUsed(req, os, room, junk);
      ghost var after, told, flips, ready := Result(req, os, room, junk), Told(req, os), Flips(req, os), Ready(req);
      a := Serve(req, os, room, junk, after, told, flips, ready);
      Serves(a);
    }

    method Serve(req: Request, os: Os, room: Option<Ref>, junk: (int, bool, bool), ghost after: After, ghost told: Of,
        ghost flips: bool, ghost ready: bool) returns (a: Answer)
      requires Valid() && Sane(os, fds) && (room.Some? ==> room.value !in files)
      requires
        req.name in tree && tree[req.name] in files && files[tree[req.name]].fd != INVALID && os.stat.Got?
        && os.stat.value.uniq == files[tree[req.name]].uniq ==>
        !os.stat.value.isDir
      requires after == Result(req, os, room, junk) && told == Told(req, os) && flips == Flips(req, os)
        && ready == Ready(req)
      modifies this`tree, this`queue, this`current, this`files, this`fds, this`treed, this`owner, this`users,
        this`leaked, this`asked
      ensures Valid() && users == Use(old(users), a)
      ensures Settled(tree, queue, files, req.name, after, a) && Others(old(tree), tree, req.name)
        && fds <= old(fds) + Opened(os)
      ensures flips ==> req.name in old(tree) && old(tree)[req.name] in old(files)
      ensures leaked == if flips then old(leaked) + {old(files[tree[req.name]].fd)} else old(leaked)
      ensures flips ==> old(files[tree[req.name]].fd) !in old(leaked)
      ensures StillOpen(old(files), fds) && (!flips ==> Held(old(files), files, fds))
      ensures asked == if ready then old(asked) else old(asked)[req.name := Look(req.now, told, req.symlinks)]
    {
      if req.name in tree {
        ReadyIs(req);
        RevisitAs(req, os, room, junk);
        a := Revisit(req, os, room, junk, files[tree[req.name]], after, told, flips, ready);
      } else {
        IntroduceAs(req, os, room, junk);
        ghost var files0 := files;
        a := Introduce(req, os, room, junk, after, told);
        KeptHeld(files0, files, fds);
      }
    }

    lemma IntroduceAs(req: Request, os: Os, room: Option<Ref>, junk: (int, bool, bool))
      requires req.name !in tree
      ensures Result(req, os, room, junk) == Newly(Found(INVALID, req.uniq, req.testDir, os), req, room, junk)
      ensures Told(req, os) == Found(INVALID, req.uniq, req.testDir, os) && !Flips(req, os) && !Ready(req)
    {}

    /** A name in the cache. */
    method Revisit(req: Request, os: Os, room: Option<Ref>, junk: (int, bool, bool), ghost f: File, ghost after: After,
        ghost told: Of, ghost flips: bool, ghost ready: bool) returns (a: Answer)
      requires Valid() && Sane(os, fds) && (room.Some? ==> room.value !in files) && req.name in tree
      requires tree[req.name] in files && f == files[tree[req.name]]
      requires f.fd != INVALID && os.stat.Got? && os.stat.value.uniq == f.uniq ==> !os.stat.value.isDir
      requires after == Consulted(tree[req.name], f.(uses := f.uses + 1), req, os, room, junk)
      requires told == Heard(f, req, os)
      requires (flips <==> Flip(f, os) && !Current(f, req)) && (ready <==> Answering(f, req))
      modifies this`tree, this`queue, this`current, this`files, this`fds, this`treed, this`owner, this`users,
        this`leaked, this`asked
      ensures Valid() && users == Use(old(users), a)
      ensures Settled(tree, queue, files, req.name, after, a) && Others(old(tree), tree, req.name)
        && fds <= old(fds) + Opened(os)
      ensures leaked == if flips then old(leaked) + {f.fd} else old(leaked)
      ensures flips ==> f.fd !in old(leaked)
      ensures StillOpen(old(files), fds) && (!flips ==> Held(old(files), files, fds))
      ensures asked == if ready then old(asked) else old(asked)[req.name := Look(req.now, told, req.symlinks)]
    {
      ghost var files0 := files;
      var r := Fetch(req.name);
      ghost var files1 := files;
      UsesAlike(files0, r);
      a := Attend(r, req, os, room, junk, f, after, told, flips, ready);
      HeldFrom(files0, files1, files, fds);
    }

    lemma RevisitAs(req: Request, os: Os, room: Option<Ref>, junk: (int, bool, bool))
      requires req.name in tree && tree[req.name] in files
      ensures var r := tree[req.name]; var f := files[r];
        && Result(req, os, room, junk) == Consulted(r, f.(uses := f.uses + 1), req, os, room, junk)
        && Told(req, os) == Heard(f, req, os) && (Flips(req, os) <==> Flip(f, os) && !Current(f, req))
    {}

    /** An entry whose uses have just been counted up from those of `f`. */
    method Attend(r: Ref, req: Request, os: Os, room: Option<Ref>, junk: (int, bool, bool), ghost f: File,
        ghost after: After, ghost told: Of, ghost flips: bool, ghost ready: bool) returns (a: Answer)
      requires Inv({r}, {}, leaked) && current <= max && max >= 1 && r in files && r in treed
        && files[r].name == req.name && Cached(files[r]) && DatedOne(files[r], asked)
      requires req.name in tree && tree[req.name] == r && files[r] == f.(uses := f.uses + 1)
      requires Sane(os, fds) && (room.Some? ==> room.value !in files)
      requires f.fd != INVALID && os.stat.Got? && os.stat.value.uniq == f.uniq ==> !os.stat.value.isDir
      requires after == Consulted(r, f.(uses := f.uses + 1), req, os, room, junk) && told == Heard(f, req, os)
      requires (flips <==> Flip(f, os) && !Current(f, req)) && (ready <==> Answering(f, req))
      modifies this`tree, this`queue, this`current, this`files, this`fds, this`treed, this`owner, this`users,
        this`leaked, this`asked
      ensures Inv({}, {}, leaked) && current <= max && users == Use(old(users), a)
      ensures leaked == if flips then old(leaked) + {f.fd} else old(leaked)
      ensures flips ==> f.fd !in old(leaked)
      ensures StillOpen(old(files), fds) && (!flips ==> Held(old(files), files, fds))
      ensures Settled(tree, queue, files, req.name, after, a) && Others(old(tree), tree, req.name)
        && fds <= old(fds) + Opened(os)
      ensures asked == if ready then old(asked) else old(asked)[req.name := Look(req.now, told, req.symlinks)]
    {
      UsesAside(f, req, os);
      Apart({r}, {}, leaked);
      a := Consult(r, req, os, room, junk, after, told, flips, ready);
    }

    lemma Serves(a: Answer)
      requires Inv({}, {}, leaked) && (a.Serving? ==> a.entry in files && files[a.entry].fd == a.fd && a.entry in users)
      ensures a.Serving? ==> a.fd in fds
    {
      Unpack(View(), {}, {}, leaked);
    }

    /** What the name leads to after the call. */
    ghost function Result(req: Request, os: Os, room: Option<Ref>, junk: (int, bool, bool)): After
      reads this
    {
      if req.name in tree && tree[req.name] in files
      then var f := files[tree[req.name]]; Consulted(tree[req.name], f.(uses := f.uses + 1), req, os, room, junk)
      else Newly(Found(INVALID, req.uniq, req.testDir, os), req, room, junk)
    }

    /**
     * The name has an entry, with its descriptor if it is a file; the system was asked less than `valid` ago, with
     * links to be followed in the same way; and it is the inode asked for, if one is.
     */
    ghost predicate Ready(req: Request)
      reads this
    {
      && req.name in tree && tree[req.name] in files && req.name in asked
      && var f, l := files[tree[req.name]], asked[req.name];
         && (Plain(f) ==> f.fd != INVALID) && (req.uniq == 0 || req.uniq == f.uniq)
         && req.now - l.when < req.valid && req.symlinks == l.symlinks
    }

    /** What the system says when it is asked now. */
    ghost function Told(req: Request, os: Os): Of
      reads this
    {
      if req.name in tree && tree[req.name] in files then Heard(files[tree[req.name]], req, os)
      else Found(INVALID, req.uniq, req.testDir, os)
    }

    lemma ReadyIs(req: Request)
      requires Valid() && req.name in tree
      ensures tree[req.name] in files && (Ready(req) <==> Answering(files[tree[req.name]], req))
      ensures DatedOne(files[tree[req.name]], asked) && files[tree[req.name]].name == req.name
    {
      Unpack(View(), {}, {}, leaked);
      assert DatedOne(files[tree[req.name]], asked);
    }

    /** A ready entry answers what the system last said. */
    lemma ReadyAnswer(req: Request, os: Os, room: Option<Ref>, junk: (int, bool, bool))
      requires Valid()
      ensures Ready(req) ==>
        AnswerFrom(Result(req, os, room, junk)) == AnswerOf(asked[req.name].of, tree[req.name])
    {
      if Ready(req) { ReadyIs(req); }
    }

    lemma ResultUsed(req: Request, os: Os, room: Option<Ref>, junk: (int, bool, bool))
      requires Valid() && (room.Some? ==> room.value !in files)
      ensures var after := Result(req, os, room, junk);
        after.There? ==>
          after.file.accessed == req.now && after.file.uses == Uses(tree, files, req.name, after.entry)
    {
      if req.name in tree { ReadyIs(req); }
    }

    /** The answer does not depend on what the system would say exactly if the entry is ready. */
    lemma IndependentExactly(req: Request, room: Option<Ref>, junk: (int, bool, bool))
      requires Valid()
      ensures Ready(req) <==>
        forall os, os' :: AnswerFrom(Result(req, os, room, junk)) == AnswerFrom(Result(req, os', room, junk))
    {
      if req.name in tree { ReadyIs(req); }
      if !Ready(req) {
        var os, os' := Os(Errno(1), Errno(1), Errno(1)), Os(Errno(2), Errno(2), Errno(2));
        assert AnswerFrom(Result(req, os, room, junk)) == Failure(1);
        assert AnswerFrom(Result(req, os', room, junk)) == Failure(2);
      }
    }

    /** Somebody uses the entry of the name, and the system says that there is something else under it now. */
    ghost predicate Superseded(req: Request, of: Of)
      reads this
    {
      && req.name in tree && tree[req.name] in files
      && var f := files[tree[req.name]];
         f.count > 0 && (of.err != 0 || of.isDir || of.uniq != f.uniq)
    }

    /**
     * The name leads to an entry afterwards exactly if the entry was ready, or the system found something, or an error
     * that the caller wants to be kept, and there is an entry for it or memory for one.
     */
    lemma KeptExactly(req: Request, os: Os, room: Option<Ref>, junk: (int, bool, bool))
      requires Valid()
      ensures var of := Told(req, os);
        Result(req, os, room, junk).There? <==>
          || Ready(req)
          || (&& (of.ok || (of.err != 0 && req.errors))
              && (room.Some? || (req.name in tree && !Superseded(req, of))))
    {
      if req.name in tree {
        ReadyIs(req);
        Unpack(View(), {}, {}, leaked);
        assert FitOne(treed, {}, tree[req.name], files[tree[req.name]]);
      }
    }

    /** A call that asks the system, while nothing changes, answers what is there. */
    lemma SteadyAnswer(req: Request, os: Os, w: World, r: Ref, junk: (int, bool, bool))
      requires Valid() && !Ready(req) && Steady(os, w) && Sane(os, fds) && (w.Thing? ==> w.open.Got?) && r !in files
      requires
        req.name in tree && tree[req.name] in files && files[tree[req.name]].fd != INVALID && w.Thing?
        && w.info.uniq == files[tree[req.name]].uniq ==>
        !w.info.isDir
      ensures var after := Result(req, os, Some(r), junk); var a := AnswerFrom(after);
        && (w.Missing? ==> a == Failure(w.err))
        && (w.Thing? && w.info.isDir ==> a == Directory)
        && (w.Thing? && !w.info.isDir ==> after.There? && after.file.uniq == w.info.uniq && a.Serving?)
    {
      if req.name in tree {
        ReadyIs(req);
        var f := files[tree[req.name]];
        FoundIsThere(INVALID, req.uniq, req.testDir, os, w);
        FoundIsThere(f.fd, f.uniq, f.isDir || req.testDir, os, w);
      } else {
        FoundIsThere(INVALID, req.uniq, req.testDir, os, w);
      }
    }

    /** The call tests an entry again and the name flips. */
    ghost predicate Flips(req: Request, os: Os)
      reads this
    {
      && req.name in tree && tree[req.name] in files
      && var f := files[tree[req.name]];
         Flip(f, os) && !Current(f, req)
    }

    /** A leaked descriptor is open, and no entry's. */
    lemma Lost(d: int)
      requires Valid() && d in leaked
      ensures d in fds && forall r :: r in files ==> files[r].fd != d
    {
      Unpack(View(), {}, {}, leaked);
      assert d != INVALID && d !in owner;
    }

    /**
     * Between calls the tree and the queue hold the same entries, `current` counts them, and it does not exceed `max`.
     */
    lemma Bookkeeping()
      requires Valid()
      ensures NoDup(queue) && current == |queue| <= max
      ensures forall n :: n in tree ==> tree[n] in queue && tree[n] in files && files[tree[n]].name == n
      ensures forall r :: r in queue ==> r in files && files[r].name in tree && tree[files[r].name] == r
    {
      Unpack(View(), {}, {}, leaked);
      Queued(View(), {}, {}, leaked);
      forall n | n in tree ensures tree[n] in queue { assert tree[n] in Elems(queue); }
    }

    /** Every open descriptor that has not leaked is the descriptor of exactly one entry. */
    lemma OneOwner(d: int) returns (r: Ref)
      requires Valid() && d in fds && d !in leaked
      ensures r in files && files[r].fd == d && forall q :: q in files && files[q].fd == d ==> q == r
    {
      Unpack(View(), {}, {}, leaked);
      r := owner[d];
    }

    /** An entry counts its users; one in use is a plain file with an open descriptor; one out of the tree is in use. */
    lemma Users(r: Ref)
      requires Valid() && r in files
      ensures files[r].count == users[r]
      ensures files[r].count > 0 ==> Plain(files[r]) && files[r].fd in fds
      ensures !(files[r].name in tree && tree[files[r].name] == r) ==> files[r].count > 0 && files[r].close
    {
      Unpack(View(), {}, {}, leaked);
      assert FitOne(treed, {}, r, files[r]);
    }
  }

  /**
   * A descriptor does get lost. "a" is opened at time 0 as inode 1 on descriptor 3. By the second request the entry is
   * no longer current, for whatever reason; its stat sees inode 2 and its open gets inode 1 again, on descriptor 4. The
   * entry now holds 4, and 3 stays open for good.
   */
  method FlipLeaks(second: Request) returns (c: FileCache)
    requires second.name == "a"
      && !(second.uniq in {0, 1} && second.now < second.valid && second.symlinks == Symlinks(0, 0))
    ensures fresh(c) && c.Valid() && c.leaked == {3} && 3 in c.fds
    ensures forall r :: r in c.files ==> c.files[r].fd != 3
  {
    c := new FileCache(10, 60);
    var first := Request("a", 0, 60, 1, false, false, 0, Symlinks(0, 0));
    var a := c.OpenCached(first, Os(Errno(2), Got(3), Got(Info(1, false))), Some(0), (0, false, false));
    assert a == Serving(3, 0);
    a := c.OpenCached(second, Os(Got(Info(2, false)), Got(4), Got(Info(1, false))), None, (0, false, false));
    assert a == Serving(4, 0);
    c.Lost(3);
  }
}
