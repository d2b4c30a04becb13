// Linking crew names to contacts across transactions, with a cache that only keeps
// what was committed.

module CrewLinking {

  import opened Common

  type ContactId = nat

  /** Name handling: trimming, the service's lower-cased key, the database's own key for its
      unique index, and whether a name is short enough. Nothing relates the last three. */
  datatype Texts = Texts(trim: string -> string, lower: string -> string, row: string -> string, fits: string -> bool)

  datatype Contact = Contact(id: ContactId, name: string)

  /** One user's contacts by database key, and the next fresh id. */
  datatype Store = Store(rows: map<string, Contact>, next: ContactId)

  datatype Member = Member(name: string, role: string, contact: Option<ContactId>)

  predicate OwnsId(s: Store, id: ContactId) { exists k | k in s.rows :: s.rows[k].id == id }

  ghost predicate UniqueIds(s: Store) {
    && (forall k | k in s.rows :: s.rows[k].id < s.next)
    && (forall j, k | j in s.rows && k in s.rows && s.rows[j].id == s.rows[k].id :: j == k)
  }

  /** FindOrCreateByName. */
  function FindOrCreate(t: Texts, s: Store, name: string): (ContactId, Store) {
    var key := t.row(name);
    if key in s.rows then (s.rows[key].id, s)
    else (s.next, Store(s.rows[key := Contact(s.next, name)], s.next + 1))
  }

  // --- Linking without a cache ---------------------------------------------------------

  predicate KeepsOwn(s: Store, m: Member) { m.contact.Some? && OwnsId(s, m.contact.value) }

  /** One member linked straight against the store. */
  function LinkOne(t: Texts, s: Store, m: Member): (Member, Store) {
    var name := t.trim(m.name);
    if name == "" then (Member(name, m.role, None), s)
    else if KeepsOwn(s, m) then (m.(name := name), s)
    else if !t.fits(name) then (Member(name, m.role, None), s)
    else
      var (id, s') := FindOrCreate(t, s, name);
      (Member(name, m.role, Some(id)), s')
  }

  function LinkAll(t: Texts, s: Store, ms: seq<Member>): (seq<Member>, Store) {
    if ms == [] then ([], s)
    else
      var (init, s1) := LinkAll(t, s, ms[..|ms| - 1]);
      var (m, s2) := LinkOne(t, s1, ms[|ms| - 1]);
      (init + [m], s2)
  }

  /** What linking a member means: the name is trimmed; a contact of the user's own stays; otherwise a name that
      is not blank and not too long is linked to the contact with its row, which is created, under that name,
      exactly when there was none; anybody else's contact is dropped. Nothing else changes. */
  lemma LinkedIff(t: Texts, s: Store, m: Member)
    requires UniqueIds(s)
    ensures var (linked, s') := LinkOne(t, s, m);
            var name := t.trim(m.name);
            var row, own := t.row(name), exists k :: k in s.rows && m.contact == Some(s.rows[k].id);
            && linked.name == name && linked.role == m.role && UniqueIds(s')
            && (linked.contact.None? <==> name == "" || (!own && !t.fits(name)))
            && (name != "" && own ==> linked.contact == m.contact)
            && (linked.contact.Some? && !own ==> row in s'.rows && linked.contact == Some(s'.rows[row].id))
            && s'.rows == if name != "" && !own && t.fits(name) && row !in s.rows then s.rows[row := Contact(s.next, name)] else s.rows
  {
  }

  /** Two names, linked one after the other, are linked to one contact exactly when the database takes them
      for one row. */
  lemma OneContactIff(t: Texts, s: Store, a: Member, b: Member)
    requires UniqueIds(s) && a.contact.None? && b.contact.None?
    requires t.trim(a.name) != "" && t.trim(b.name) != "" && t.fits(t.trim(a.name)) && t.fits(t.trim(b.name))
    ensures var (first, s1) := LinkOne(t, s, a);
            var (second, s2) := LinkOne(t, s1, b);
            first.contact == second.contact <==> t.row(t.trim(a.name)) == t.row(t.trim(b.name))
  {
  }

  // --- Linking with remembered names -------------------------------------------------------

  /** Remembered names: the lower-cased key, and the row it was resolved to. */
  type Known = map<string, string>

  ghost predicate KnownIn(known: Known, s: Store) { forall k | k in known :: known[k] in s.rows }

  /** The store, and what is remembered of it. */
  datatype World = World(store: Store, known: Known)

  ghost predicate Valid(w: World) { KnownIn(w.known, w.store) && UniqueIds(w.store) }

  /** One member linked by a linker that remembers names. */
  function CachedOne(t: Texts, w: World, m: Member): (Member, World) {
    var name := t.trim(m.name);
    var key := t.lower(name);
    if name == "" then (Member(name, m.role, None), w)
    else if KeepsOwn(w.store, m) then (m.(name := name), w)
    else if key in w.known && w.known[key] in w.store.rows then
      (Member(name, m.role, Some(w.store.rows[w.known[key]].id)), w)
    else if !t.fits(name) then (Member(name, m.role, None), w)
    else
      var (id, s') := FindOrCreate(t, w.store, name);
      (Member(name, m.role, Some(id)), World(s', w.known[key := t.row(name)]))
  }

  function CachedAll(t: Texts, w: World, ms: seq<Member>): (seq<Member>, World) {
    if ms == [] then ([], w)
    else
      var (init, w1) := CachedAll(t, w, ms[..|ms| - 1]);
      var (m, w2) := CachedOne(t, w1, ms[|ms| - 1]);
      (init + [m], w2)
  }

  /** A name that is to be resolved and whose key is remembered, though it is too long or has a
      row of its own. */
  predicate Offends(t: Texts, w: World, m: Member) {
    var name := t.trim(m.name);
    var key := t.lower(name);
    name != "" && !KeepsOwn(w.store, m) && key in w.known && (!t.fits(name) || t.row(name) != w.known[key])
  }

  ghost predicate Extends(s: Store, s': Store) {
    s.next <= s'.next && forall k | k in s.rows :: k in s'.rows && s'.rows[k] == s.rows[k]
  }

  lemma OneKeepsValid(t: Texts, w: World, m: Member)
    requires Valid(w)
    ensures var w' := CachedOne(t, w, m).1;
            Valid(w') && Extends(w.store, w'.store) && |w.store.rows| <= |w'.store.rows| <= |w.store.rows| + 1
  {
    hide UniqueIds, FindOrCreate, Extends, KeepsOwn, KnownIn;
    var name := t.trim(m.name);
    FindOrCreateKeeps(t, w.store, name);
    KnownGrows(w.known, w.store, FindOrCreate(t, w.store, name).1, t.lower(name), t.row(name));
    ExtendsItself(w.store);
  }

  lemma KnownGrows(known: Known, s: Store, s': Store, key: string, row: string)
    requires KnownIn(known, s) && Extends(s, s') && row in s'.rows
    ensures KnownIn(known[key := row], s')
  {
  }

  lemma ExtendsItself(s: Store)
    ensures Extends(s, s)
  {
  }

  /** A remembering linker treats a member as an uncached one would exactly when it does not offend. */
  lemma OneAgreesIff(t: Texts, w: World, m: Member)
    requires Valid(w)
    ensures CachedOne(t, w, m).0 == LinkOne(t, w.store, m).0 <==> !Offends(t, w, m)
    ensures !Offends(t, w, m) ==> CachedOne(t, w, m).1.store == LinkOne(t, w.store, m).1
  {
    var name := t.trim(m.name);
    var key := t.lower(name);
    if name != "" && !KeepsOwn(w.store, m) && key in w.known && t.row(name) in w.store.rows {
      assert w.known[key] in w.store.rows;
    }
  }

  /** No member of the crew offends when its turn comes. */
  ghost predicate NoOffence(t: Texts, w: World, ms: seq<Member>) {
    forall i | 0 <= i < |ms| :: !Offends(t, CachedAll(t, w, ms[..i]).1, ms[i])
  }

  lemma NoOffenceStep(t: Texts, w: World, ms: seq<Member>)
    requires ms != []
    ensures var n := |ms| - 1;
            NoOffence(t, w, ms) <==> NoOffence(t, w, ms[..n]) && !Offends(t, CachedAll(t, w, ms[..n]).1, ms[n])
  {
    hide Offends, CachedAll;
    var init := ms[..|ms| - 1];
    forall i | 0 <= i < |init| ensures init[..i] == ms[..i] && init[i] == ms[i] { }
  }

  lemma {:induction false} AllKeepsValid(t: Texts, w: World, ms: seq<Member>)
    requires Valid(w)
    ensures var (crew, w') := CachedAll(t, w, ms);
            |crew| == |ms| && Valid(w') && Extends(w.store, w'.store) && |w.store.rows| <= |w'.store.rows|
  {
    hide CachedOne, Valid;
    if ms != [] {
      AllKeepsValid(t, w, ms[..|ms| - 1]);
      OneKeepsValid(t, CachedAll(t, w, ms[..|ms| - 1]).1, ms[|ms| - 1]);
    }
  }

  lemma {:induction false} LinkAllLength(t: Texts, s: Store, ms: seq<Member>)
    ensures |LinkAll(t, s, ms).0| == |ms|
  {
    hide LinkOne;
    if ms != [] { LinkAllLength(t, s, ms[..|ms| - 1]); }
  }

  /** The crew of a flight comes out as from an uncached linker exactly when no member offends,
      and then so do the contacts. */
  lemma {:induction false} CrewAgreesIff(t: Texts, w: World, ms: seq<Member>)
    requires Valid(w)
    ensures CachedAll(t, w, ms).0 == LinkAll(t, w.store, ms).0 <==> NoOffence(t, w, ms)
    ensures NoOffence(t, w, ms) ==> CachedAll(t, w, ms).1.store == LinkAll(t, w.store, ms).1
  {
    hide CachedOne, LinkOne, Offends, NoOffence, Valid;
    if ms == [] {
      NothingOffends(t, w);
    } else {
      var init, last := ms[..|ms| - 1], ms[|ms| - 1];
      CrewAgreesIff(t, w, init);
      NoOffenceStep(t, w, ms);
      AllKeepsValid(t, w, init);
      LinkAllLength(t, w.store, init);
      var (crew, w1) := CachedAll(t, w, init);
      OneAgreesIff(t, w1, last);
      assert CachedAll(t, w, ms).0 == crew + [CachedOne(t, w1, last).0];
      assert CachedAll(t, w, ms).0[..|init|] == crew;
      assert LinkAll(t, w.store, ms).0[..|init|] == LinkAll(t, w.store, init).0;
      assert CachedAll(t, w, ms).0[|init|] == CachedOne(t, w1, last).0;
      assert LinkAll(t, w.store, ms).0[|init|] == LinkOne(t, LinkAll(t, w.store, init).1, last).0;
    }
  }

  lemma NothingOffends(t: Texts, w: World)
    ensures NoOffence(t, w, [])
  {
  }

  /** What the linker's answer means: the trimmed name, and a contact the store holds. A member
      stays unlinked exactly when its name is blank, or too long with no id of the user's own
      and no remembered key. */
  lemma LinkedMeansHeld(t: Texts, w: World, m: Member)
    requires Valid(w)
    ensures var (m', w') := CachedOne(t, w, m);
            && m'.name == t.trim(m.name) && m'.role == m.role
            && (m'.contact.Some? ==> OwnsId(w'.store, m'.contact.value))
            && (m'.contact.None? <==> m'.name == "" || (!t.fits(m'.name) && !KeepsOwn(w.store, m) && t.lower(m'.name) !in w.known))
  {
    var (m', w') := CachedOne(t, w, m);
    if m'.contact.Some? && !KeepsOwn(w.store, m) {
      assert t.lower(m'.name) in w'.known && w'.known[t.lower(m'.name)] in w'.store.rows;
    }
  }

  // --- Which texts are safe -------------------------------------------------------------------

  /** Names with one lower-cased key have one row, and if one is short enough all are. */
  ghost predicate KeyDecides(t: Texts) {
    forall a, b | t.trim(a) != "" && t.trim(b) != "" && t.lower(t.trim(a)) == t.lower(t.trim(b)) && t.fits(t.trim(a)) ::
      t.fits(t.trim(b)) && t.row(t.trim(a)) == t.row(t.trim(b))
  }

  /** What is remembered was learnt from names that fit. */
  ghost predicate Learnt(t: Texts, known: Known) {
    forall k | k in known :: exists a :: LearntFrom(t, known, k, a)
  }

  ghost predicate LearntFrom(t: Texts, known: Known, k: string, a: string)
    requires k in known
  {
    t.trim(a) != "" && t.fits(t.trim(a)) && t.lower(t.trim(a)) == k && t.row(t.trim(a)) == known[k]
  }

  lemma OneKeepsLearnt(t: Texts, w: World, m: Member)
    requires Learnt(t, w.known)
    ensures Learnt(t, CachedOne(t, w, m).1.known)
  {
    var known := CachedOne(t, w, m).1.known;
    forall k | k in known ensures exists a :: LearntFrom(t, known, k, a) {
      if k in w.known && known[k] == w.known[k] {
        var a :| LearntFrom(t, w.known, k, a);
        assert LearntFrom(t, known, k, a);
      } else {
        assert LearntFrom(t, known, k, m.name);
      }
    }
  }

  lemma {:induction false} AllKeepsLearnt(t: Texts, w: World, ms: seq<Member>)
    requires Learnt(t, w.known)
    ensures Learnt(t, CachedAll(t, w, ms).1.known)
  {
    hide CachedOne, Learnt;
    if ms != [] {
      AllKeepsLearnt(t, w, ms[..|ms| - 1]);
      OneKeepsLearnt(t, CachedAll(t, w, ms[..|ms| - 1]).1, ms[|ms| - 1]);
    }
  }

  lemma DecidedNamesAreSafe(t: Texts, w: World, ms: seq<Member>)
    requires KeyDecides(t) && Learnt(t, w.known)
    ensures NoOffence(t, w, ms)
  {
    forall i | 0 <= i < |ms| ensures !Offends(t, CachedAll(t, w, ms[..i]).1, ms[i]) {
      AllKeepsLearnt(t, w, ms[..i]);
      hide CachedAll;
      var w1, name := CachedAll(t, w, ms[..i]).1, t.trim(ms[i].name);
      if t.lower(name) in w1.known {
        var a :| LearntFrom(t, w1.known, t.lower(name), a);
      }
    }
  }

  /** The failing family: two names with one lower-cased key, the first short enough, the second
      too long or with a row of its own. In one crew the second is linked to the first's contact. */
  lemma TwinOffends(t: Texts, s: Store, a: string, b: string, role: string)
    requires UniqueIds(s) && t.trim(a) != "" && t.trim(b) != "" && t.fits(t.trim(a)) && t.lower(t.trim(a)) == t.lower(t.trim(b))
    requires !t.fits(t.trim(b)) || t.row(t.trim(a)) != t.row(t.trim(b))
    ensures var crew := [Member(a, role, None), Member(b, role, None)];
            var linked := CachedAll(t, World(s, map[]), crew).0;
            && !NoOffence(t, World(s, map[]), crew)
            && |linked| == 2 && linked[1].contact == linked[0].contact && linked[1].contact.Some?
            && LinkAll(t, s, crew).0 != linked
  {
    var w, crew := World(s, map[]), [Member(a, role, None), Member(b, role, None)];
    LinkNone(t, w);
    assert crew[..0] == [] && crew[..2] == crew;
    CachedAllStep(t, w, crew, 0);
    CachedAllStep(t, w, crew, 1);
    hide CachedAll;
    var w1 := CachedOne(t, w, crew[0]).1;
    assert CachedAll(t, w, crew[..1]).1 == w1;
    assert w1.known == map[t.lower(t.trim(a)) := t.row(t.trim(a))];
    assert Offends(t, w1, crew[1]);
    assert !NoOffence(t, w, crew) by { assert Offends(t, CachedAll(t, w, crew[..1]).1, crew[1]); }
    CrewAgreesIff(t, w, crew);
  }

  /** So a linker agrees with an uncached one on every crew exactly when the lower-cased key of a
      name decides its row and whether it is too long. */
  lemma AlwaysAgreesIff(t: Texts)
    ensures (forall s, ms | UniqueIds(s) :: CachedAll(t, World(s, map[]), ms).0 == LinkAll(t, s, ms).0) <==> KeyDecides(t)
  {
    if KeyDecides(t) {
      forall s, ms | UniqueIds(s) ensures CachedAll(t, World(s, map[]), ms).0 == LinkAll(t, s, ms).0 {
        DecidedNamesAreSafe(t, World(s, map[]), ms);
        CrewAgreesIff(t, World(s, map[]), ms);
      }
    } else {
      var a, b :| t.trim(a) != "" && t.trim(b) != "" && t.lower(t.trim(a)) == t.lower(t.trim(b)) && t.fits(t.trim(a))
        && !(t.fits(t.trim(b)) && t.row(t.trim(a)) == t.row(t.trim(b)));
      var s := Store(map[], 0);
      TwinOffends(t, s, a, b, "");
      assert UniqueIds(s);
    }
  }

  // --- The linker -----------------------------------------------------------------------------

  /** Each remembered id is that of the row its name was resolved to. */
  ghost predicate Remembers(m: map<string, ContactId>, known: Known, s: Store) {
    m.Keys == known.Keys && forall k | k in m :: known[k] in s.rows && s.rows[known[k]].id == m[k]
  }

  lemma RemembersMore(m: map<string, ContactId>, known: Known, s: Store, s': Store)
    requires Remembers(m, known, s) && Extends(s, s')
    ensures Remembers(m, known, s')
  {
  }

  lemma PlusPut(a: Known, b: Known, k: string, v: string)
    ensures a + b[k := v] == (a + b)[k := v]
  {
  }

  lemma PlusNothing(a: Known)
    ensures a + map[] == a
  {
  }

  lemma RemembersOneMore(m: map<string, ContactId>, known: Known, k: string, id: ContactId, row: string, s: Store)
    requires Remembers(m, known, s) && row in s.rows && s.rows[row].id == id
    ensures Remembers(m[k := id], known[k := row], s)
  {
  }

  lemma FindOrCreateKeeps(t: Texts, s: Store, name: string)
    requires UniqueIds(s)
    ensures var (id, s') := FindOrCreate(t, s, name);
            && UniqueIds(s') && Extends(s, s') && t.row(name) in s'.rows && s'.rows[t.row(name)].id == id
            && |s'.rows| == |s.rows| + if t.row(name) in s.rows then 0 else 1
  {
  }

  lemma RemembersTogether(a: map<string, ContactId>, ka: Known, b: map<string, ContactId>, kb: Known, s: Store)
    requires Remembers(a, ka, s) && Remembers(b, kb, s)
    ensures Remembers(a + b, ka + kb, s) && KnownIn(ka + kb, s)
  {
  }

  /** A contact repository: the committed table, or a transaction's view of it. */
  class Contacts {
    var store: Store

    constructor (store: Store)
      ensures this.store == store
    {
      this.store := store;
    }

    method FindOrCreateByName(t: Texts, name: string) returns (id: ContactId, isNew: bool)
      modifies this
      ensures (id, store) == FindOrCreate(t, old(store), name)
      ensures isNew <==> t.row(name) !in old(store).rows
    {
      var key := t.row(name);
      if key in store.rows { return store.rows[key].id, false; }
      id := store.next;
      store := Store(store.rows[key := Contact(id, name)], store.next + 1);
      return id, true;
    }
  }

  class CrewLinker {
    const t: Texts
    var cache: map<string, ContactId>
    var created: nat
    var pending: map<string, ContactId>
    var pendingCreated: nat
    /** The rows behind the cached and the pending names. */
    ghost var cached: Known
    ghost var added: Known

    constructor (t: Texts)
      ensures this.t == t && cache == map[] && created == 0 && pending == map[] && pendingCreated == 0
      ensures cached == map[] && added == map[]
    {
      this.t, cache, created, pending, pendingCreated := t, map[], 0, map[], 0;
      cached, added := map[], map[];
    }

    /** What the linker remembers is in the store it is used with. */
    ghost predicate Knows(s: Store)
      reads this
    {
      Remembers(cache, cached, s) && Remembers(pending, added, s) && UniqueIds(s)
    }

    ghost function WorldOf(s: Store): World
      reads this
    {
      World(s, cached + added)
    }

    /** Confirm keeps what was resolved. */
    method Confirm()
      modifies this
      ensures cache == old(cache) + old(pending) && created == old(created) + old(pendingCreated)
      ensures cached == old(cached) + old(added)
      ensures pending == map[] && pendingCreated == 0 && added == map[]
    {
      cache, cached := cache + pending, cached + added;
      created := created + pendingCreated;
      Discard();
    }

    /** Discard drops it. */
    method Discard()
      modifies this
      ensures cache == old(cache) && cached == old(cached) && created == old(created)
      ensures pending == map[] && pendingCreated == 0 && added == map[]
    {
      pending, pendingCreated, added := map[], 0, map[];
    }

    /** One member: the pending names, then the cache, then the repository. `fails` makes the
        repository calls for this member fail. */
    method LinkMember(repo: Contacts, m: Member, fails: bool) returns (m': Member, ok: bool)
      requires Knows(repo.store)
      modifies this, repo
      ensures cache == old(cache) && cached == old(cached) && created == old(created)
      ensures ok ==> (m', WorldOf(repo.store)) == CachedOne(t, old(WorldOf(repo.store)), m)
      ensures !ok ==> fails && repo.store == old(repo.store) && pending == old(pending) && added == old(added)
      ensures Knows(repo.store)
      ensures pendingCreated + |old(repo.store).rows| == old(pendingCreated) + |repo.store.rows|
    {
      var name := t.trim(m.name);
      m' := m.(name := name);
      if name == "" { return m'.(contact := None), true; }
      if m.contact.Some? {
        if fails { return m', false; }
        if OwnsId(repo.store, m.contact.value) { return m', true; }
        m' := m'.(contact := None);
      }
      var key := t.lower(name);
      var id: ContactId;
      if key in pending {
        id := pending[key];
      } else if key in cache {
        id := cache[key];
      } else {
        if !t.fits(name) { return m'.(contact := None), true; }
        if fails { return m', false; }
        FindOrCreateKeeps(t, repo.store, name);
        PlusPut(cached, added, key, t.row(name));
        id := Resolve(repo, key, name);
      }
      m' := m'.(contact := Some(id));
      ok := true;
    }

    /** A name nobody remembers, resolved through the repository. */
    method Resolve(repo: Contacts, key: string, name: string) returns (id: ContactId)
      requires Knows(repo.store)
      modifies this, repo
      ensures cache == old(cache) && cached == old(cached) && created == old(created)
      ensures (id, repo.store) == FindOrCreate(t, old(repo.store), name)
      ensures added == old(added)[key := t.row(name)] && Knows(repo.store)
      ensures pendingCreated == old(pendingCreated) + if t.row(name) in old(repo.store).rows then 0 else 1
    {
      hide UniqueIds, Remembers, FindOrCreate, Extends;
      ghost var s := repo.store;
      FindOrCreateKeeps(t, s, name);
      var isNew;
      id, isNew := repo.FindOrCreateByName(t, name);
      RemembersMore(cache, cached, s, repo.store);
      RemembersMore(pending, added, s, repo.store);
      RemembersOneMore(pending, added, key, id, t.row(name), repo.store);
      pending, added := pending[key := id], added[key := t.row(name)];
      if isNew { pendingCreated := pendingCreated + 1; }
    }

    /** link: a flight's crew in place, up to the first failing call. */
    method LinkIn(repo: Contacts, members: array<Member>, fails: nat -> bool) returns (ok: bool, done: nat)
      requires Knows(repo.store)
      modifies this, repo, members
      ensures cache == old(cache) && cached == old(cached) && created == old(created)
      ensures done <= members.Length && (ok <==> done == members.Length)
      ensures !ok ==> exists i :: fails(i)
      ensures (members[..done], WorldOf(repo.store)) == CachedAll(t, old(WorldOf(repo.store)), old(members[..])[..done])
      ensures forall k | done < k < members.Length :: members[k] == old(members[k])
      ensures Knows(repo.store)
      ensures pendingCreated + |old(repo.store).rows| == old(pendingCreated) + |repo.store.rows|
    {
      hide CachedOne, CachedAll, Remembers, UniqueIds;
      ghost var was, start := members[..], WorldOf(repo.store);
      assert was[..0] == [] && members[..0] == [];
      LinkNone(t, start);
      for i := 0 to members.Length
        invariant cache == old(cache) && cached == old(cached) && created == old(created)
        invariant (members[..i], WorldOf(repo.store)) == CachedAll(t, start, was[..i])
        invariant forall k | i <= k < members.Length :: members[k] == was[k]
        invariant Knows(repo.store)
        invariant pendingCreated + |old(repo.store).rows| == old(pendingCreated) + |repo.store.rows|
      {
        CachedAllStep(t, start, was, i);
        var m, linked := LinkMember(repo, members[i], fails(i));
        ghost var before := members[..i];
        members[i] := m;
        assert members[..i] == before && members[..i + 1] == before + [m];
        if !linked { return false, i; }
      }
      assert members[..members.Length] == members[..];
      return true, members.Length;
    }
  }

  lemma LinkNone(t: Texts, w: World)
    ensures CachedAll(t, w, []) == ([], w)
  {
  }

  lemma CachedAllStep(t: Texts, w: World, ms: seq<Member>, i: nat)
    requires i < |ms|
    ensures var (init, w1) := CachedAll(t, w, ms[..i]);
            var (m, w2) := CachedOne(t, w1, ms[i]);
            CachedAll(t, w, ms[..i + 1]) == (init + [m], w2)
  {
    assert ms[..i + 1][..i] == ms[..i];
  }

  /** Link: outside any transaction each contact is committed as it is made, so what was
      resolved is kept even when a call fails part of the way. */
  method Link(linker: CrewLinker, main: Contacts, members: array<Member>, fails: nat -> bool) returns (ok: bool, done: nat)
    requires linker.Knows(main.store) && linker.pending == map[] && linker.pendingCreated == 0
    modifies linker, main, members
    ensures done <= members.Length && (ok <==> done == members.Length)
    ensures (members[..done], World(main.store, linker.cached)) == CachedAll(linker.t, old(World(main.store, linker.cached)), old(members[..])[..done])
    ensures Remembers(linker.cache, linker.cached, main.store) && linker.pending == map[]
    ensures linker.created == old(linker.created) + |main.store.rows| - |old(main.store).rows|
  {
    hide CachedAll;
    assert linker.added == map[];
    PlusNothing(linker.cached);
    ok, done := linker.LinkIn(main, members, fails);
    RemembersTogether(linker.cache, linker.cached, linker.pending, linker.added, main.store);
    linker.Confirm();
  }

  // --- Transactions one after another --------------------------------------------------------------

  /** A flight written in a transaction that is to be committed or rolled back, or contacts
      that other requests have added meanwhile. */
  datatype Event =
    | Flight(members: seq<Member>, commit: bool, fails: nat -> bool)
    | Others(rows: map<string, Contact>, next: ContactId)

  /** New contacts bring new ids. */
  predicate Fresh(s: Store, rows: map<string, Contact>, next: ContactId) {
    && (forall k | k in rows :: s.next <= rows[k].id < next)
    && (forall j, k | j in rows && k in rows && rows[j].id == rows[k].id :: j == k)
  }

  /** The committed store, and what is remembered of it, after an event. Contacts that clash with
      those in the store are refused. */
  function After(t: Texts, w: World, e: Event, committed: bool): World {
    match e
    case Flight(ms, _, _) => if committed then CachedAll(t, w, ms).1 else w
    case Others(rows, next) =>
      if Fresh(w.store, rows, next) && w.store.next <= next then World(Store(rows + w.store.rows, next), w.known) else w
  }

  function WorldAfter(t: Texts, w: World, events: seq<Event>, committed: seq<bool>): World
    requires |committed| == |events|
  {
    if events == [] then w
    else After(t, WorldAfter(t, w, events[..|events| - 1], committed[..|events| - 1]), events[|events| - 1], committed[|events| - 1])
  }

  /** The same without a cache. */
  function PlainAfter(t: Texts, s: Store, events: seq<Event>, committed: seq<bool>): Store
    requires |committed| == |events|
  {
    if events == [] then s
    else
      var n := |events| - 1;
      var before := PlainAfter(t, s, events[..n], committed[..n]);
      match events[n]
      case Flight(ms, _, _) => if committed[n] then LinkAll(t, before, ms).1 else before
      case Others(rows, next) =>
        if Fresh(before, rows, next) && before.next <= next then Store(rows + before.rows, next) else before
  }

  ghost predicate QuietRun(t: Texts, w: World, events: seq<Event>, committed: seq<bool>)
    requires |committed| == |events|
  {
    forall i | 0 <= i < |events| && committed[i] && events[i].Flight? ::
      NoOffence(t, WorldAfter(t, w, events[..i], committed[..i]), events[i].members)
  }

  /** While no committed flight has an offending member, the committed contacts are those that an
      uncached linker would have left. */
  lemma {:induction false} QuietRunIsPlain(t: Texts, w: World, events: seq<Event>, committed: seq<bool>)
    requires |committed| == |events| && Valid(w) && QuietRun(t, w, events, committed)
    ensures WorldAfter(t, w, events, committed).store == PlainAfter(t, w.store, events, committed)
  {
    hide CachedAll, LinkAll, NoOffence, Valid, Fresh;
    if events != [] {
      var n := |events| - 1;
      var es, cs := events[..n], committed[..n];
      forall i | 0 <= i < n ensures es[..i] == events[..i] && cs[..i] == committed[..i] && es[i] == events[i] && cs[i] == committed[i] { }
      assert QuietRun(t, w, es, cs);
      QuietRunIsPlain(t, w, es, cs);
      WorldStaysValid(t, w, es, cs);
      if events[n].Flight? { CrewAgreesIff(t, WorldAfter(t, w, es, cs), events[n].members); }
    }
  }

  /** How many contacts the committed flights added. */
  function Added(t: Texts, w: World, events: seq<Event>, committed: seq<bool>): int
    requires |committed| == |events|
  {
    if events == [] then 0
    else
      var n := |events| - 1;
      var before := WorldAfter(t, w, events[..n], committed[..n]);
      Added(t, w, events[..n], committed[..n])
      + if events[n].Flight? then |After(t, before, events[n], committed[n]).store.rows| - |before.store.rows| else 0
  }

  lemma AfterKeepsValid(t: Texts, w: World, e: Event, committed: bool)
    requires Valid(w)
    ensures Valid(After(t, w, e, committed)) && Extends(w.store, After(t, w, e, committed).store)
  {
    if e.Flight? {
      AllKeepsValid(t, w, e.members);
    } else if Fresh(w.store, e.rows, e.next) && w.store.next <= e.next {
      OthersKeepUnique(w.store, e.rows, e.next);
    }
  }

  lemma OthersKeepUnique(s: Store, rows: map<string, Contact>, next: ContactId)
    requires UniqueIds(s) && Fresh(s, rows, next) && s.next <= next
    ensures UniqueIds(Store(rows + s.rows, next))
  {
    var all := rows + s.rows;
    forall j, k | j in all && k in all && all[j].id == all[k].id ensures j == k {
      assert j in s.rows <==> all[j].id < s.next;
      assert k in s.rows <==> all[k].id < s.next;
    }
  }

  lemma {:induction false} WorldStaysValid(t: Texts, w: World, events: seq<Event>, committed: seq<bool>)
    requires |committed| == |events| && Valid(w)
    ensures Valid(WorldAfter(t, w, events, committed))
  {
    hide After, Valid;
    if events != [] {
      var n := |events| - 1;
      WorldStaysValid(t, w, events[..n], committed[..n]);
      AfterKeepsValid(t, WorldAfter(t, w, events[..n], committed[..n]), events[n], committed[n]);
    }
  }

  lemma WorldAfterStep(t: Texts, w: World, events: seq<Event>, committed: seq<bool>, e: Event, c: bool)
    requires |committed| == |events|
    ensures WorldAfter(t, w, events + [e], committed + [c]) == After(t, WorldAfter(t, w, events, committed), e, c)
    ensures var before := WorldAfter(t, w, events, committed);
            Added(t, w, events + [e], committed + [c])
            == Added(t, w, events, committed) + if e.Flight? then |After(t, before, e, c).store.rows| - |before.store.rows| else 0
  {
    assert (events + [e])[..|events|] == events && (committed + [c])[..|events|] == committed;
  }

  lemma NothingYet(t: Texts, w: World)
    ensures WorldAfter(t, w, [], []) == w && Added(t, w, [], []) == 0
  {
  }

  /** What the run has come to: the store, the cache, the crews of the committed flights and the count. */
  ghost predicate Linked(t: Texts, w: World, events: seq<Event>, committed: seq<bool>, crews: seq<seq<Member>>) {
    && |crews| == |committed| == |events|
    && (forall i | 0 <= i < |events| :: CrewOf(t, w, events, committed, crews, i))
  }

  /** A committed flight's crew is what a remembering linker makes of it, and it is what an
      uncached linker would make of it exactly when no member offends; a flight whose calls all
      succeed is committed when asked. */
  ghost predicate CrewOf(t: Texts, w: World, events: seq<Event>, committed: seq<bool>, crews: seq<seq<Member>>, i: nat)
    requires |crews| == |committed| == |events| && i < |events|
  {
    var e, before := events[i], WorldAfter(t, w, events[..i], committed[..i]);
    e.Flight? ==>
      && (committed[i] ==>
            && crews[i] == CachedAll(t, before, e.members).0
            && (crews[i] == LinkAll(t, before.store, e.members).0 <==> NoOffence(t, before, e.members)))
      && (e.commit && (forall k :: !e.fails(k)) ==> committed[i])
  }

  lemma CrewOfPrefix(t: Texts, w: World, events: seq<Event>, committed: seq<bool>, crews: seq<seq<Member>>,
                     e: Event, c: bool, crew: seq<Member>)
    requires Linked(t, w, events, committed, crews)
    requires var before := WorldAfter(t, w, events, committed);
             e.Flight? ==>
               && (c ==> crew == CachedAll(t, before, e.members).0
                         && (crew == LinkAll(t, before.store, e.members).0 <==> NoOffence(t, before, e.members)))
               && (e.commit && (forall k :: !e.fails(k)) ==> c)
    ensures Linked(t, w, events + [e], committed + [c], crews + [crew])
  {
    hide CachedAll, LinkAll, NoOffence, WorldAfter;
    var es, cs, ms := events + [e], committed + [c], crews + [crew];
    forall i | 0 <= i < |es| ensures CrewOf(t, w, es, cs, ms, i) {
      if i < |events| {
        assert CrewOf(t, w, events, committed, crews, i);
        assert es[..i] == events[..i] && cs[..i] == committed[..i] && es[i] == events[i] && cs[i] == committed[i] && ms[i] == crews[i];
      } else {
        assert es[..i] == events && cs[..i] == committed;
      }
    }
  }

  /** Through any sequence of flights, each committed and confirmed or rolled back and
      discarded, and of contacts added by others: every cached name maps to the contact of the
      row it was resolved to in the committed store, the committed crews are as `CrewOf` says,
      and `created` counts exactly the contacts committed. */
  method LinkFlights(linker: CrewLinker, main: Contacts, events: seq<Event>) returns (crews: seq<seq<Member>>, committed: seq<bool>)
    requires linker.cache == map[] && linker.cached == map[] && linker.pending == map[] && linker.added == map[]
    requires linker.created == 0 && linker.pendingCreated == 0 && UniqueIds(main.store)
    modifies linker, main
    ensures Linked(linker.t, World(old(main.store), map[]), events, committed, crews)
    ensures World(main.store, linker.cached) == WorldAfter(linker.t, World(old(main.store), map[]), events, committed)
    ensures Remembers(linker.cache, linker.cached, main.store) && linker.pending == map[]
    ensures linker.created == Added(linker.t, World(old(main.store), map[]), events, committed)
  {
    hide CachedAll, LinkAll, WorldAfter, Added, After, CrewOf, NoOffence, Remembers, UniqueIds;
    ghost var start, t := World(main.store, map[]), linker.t;
    crews, committed := [], [];
    NothingYet(t, start);
    NothingKnown(main.store);
    assert events[..0] == [];
    for i := 0 to |events|
      invariant Linked(t, start, events[..i], committed, crews)
      invariant World(main.store, linker.cached) == WorldAfter(t, start, events[..i], committed)
      invariant linker.Knows(main.store) && linker.pending == map[] && linker.added == map[] && linker.pendingCreated == 0
      invariant linker.created == Added(t, start, events[..i], committed)
    {
      var crew, done := OneEvent(linker, main, events[i]);
      CrewOfPrefix(t, start, events[..i], committed, crews, events[i], done, crew);
      WorldAfterStep(t, start, events[..i], committed, events[i], done);
      assert events[..i] + [events[i]] == events[..i + 1];
      crews, committed := crews + [crew], committed + [done];
    }
    assert events[..|events|] == events;
  }

  lemma NothingKnown(s: Store)
    ensures Remembers(map[], map[], s) && KnownIn(map[], s)
  {
  }

  method OneEvent(linker: CrewLinker, main: Contacts, e: Event) returns (crew: seq<Member>, committed: bool)
    requires linker.Knows(main.store) && linker.pending == map[] && linker.added == map[] && linker.pendingCreated == 0
    modifies linker, main
    ensures World(main.store, linker.cached) == After(linker.t, old(World(main.store, linker.cached)), e, committed)
    ensures var before := old(World(main.store, linker.cached));
            e.Flight? ==>
              && (committed ==> crew == CachedAll(linker.t, before, e.members).0
                                && (crew == LinkAll(linker.t, before.store, e.members).0 <==> NoOffence(linker.t, before, e.members)))
              && (e.commit && (forall k :: !e.fails(k)) ==> committed)
    ensures linker.Knows(main.store) && linker.pending == map[] && linker.added == map[] && linker.pendingCreated == 0
    ensures linker.created == old(linker.created) + if e.Flight? then |main.store.rows| - |old(main.store).rows| else 0
  {
    hide CachedAll, LinkAll, NoOffence, Remembers, UniqueIds, Extends;
    match e {
      case Others(rows, next) =>
        if Fresh(main.store, rows, next) && main.store.next <= next {
          OthersKeepUnique(main.store, rows, next);
          OthersExtend(main.store, rows, next);
          RemembersMore(linker.cache, linker.cached, main.store, Store(rows + main.store.rows, next));
          NothingKnown(Store(rows + main.store.rows, next));
          main.store := Store(rows + main.store.rows, next);
        }
        return [], false;
      case Flight(ms, commit, fails) =>
        crew, committed := OneFlight(linker, main, ms, commit, fails);
    }
  }

  lemma OthersExtend(s: Store, rows: map<string, Contact>, next: ContactId)
    requires s.next <= next
    ensures Extends(s, Store(rows + s.rows, next))
  {
  }

  lemma ReadyToLink(linker: CrewLinker, s: Store)
    requires linker.Knows(s) && linker.added == map[]
    ensures linker.WorldOf(s) == World(s, linker.cached) && Valid(World(s, linker.cached))
  {
    PlusNothing(linker.cached);
  }

  /** A flight's transaction: link, then commit and confirm, or roll back and discard. */
  method OneFlight(linker: CrewLinker, main: Contacts, ms: seq<Member>, commit: bool, fails: nat -> bool)
      returns (crew: seq<Member>, committed: bool)
    requires linker.Knows(main.store) && linker.pending == map[] && linker.added == map[] && linker.pendingCreated == 0
    modifies linker, main
    ensures var before := old(World(main.store, linker.cached));
            && World(main.store, linker.cached) == (if committed then CachedAll(linker.t, before, ms).1 else before)
            && (committed ==> crew == CachedAll(linker.t, before, ms).0
                              && (crew == LinkAll(linker.t, before.store, ms).0 <==> NoOffence(linker.t, before, ms)))
    ensures commit && (forall k :: !fails(k)) ==> committed
    ensures linker.Knows(main.store) && linker.pending == map[] && linker.added == map[] && linker.pendingCreated == 0
    ensures linker.created == old(linker.created) + |main.store.rows| - |old(main.store).rows|
  {
    hide LinkAll, CachedAll, NoOffence, Remembers, UniqueIds, KnownIn;
    ReadyToLink(linker, main.store);
    CrewAgreesIff(linker.t, World(main.store, linker.cached), ms);
    var tx := new Contacts(main.store);
    var members := new Member[|ms|](i requires 0 <= i < |ms| => ms[i]);
    assert members[..] == ms && ms[..|ms|] == ms;
    var ok, n := linker.LinkIn(tx, members, fails);
    crew := members[..];
    NothingKnown(tx.store);
    NothingKnown(main.store);
    if ok && commit {
      assert members[..n] == crew && ms[..n] == ms;
      RemembersTogether(linker.cache, linker.cached, linker.pending, linker.added, tx.store);
      main.store := tx.store;
      linker.Confirm();
      return crew, true;
    }
    linker.Discard();
    return crew, false;
  }
}
