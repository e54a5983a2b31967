/** What a list of rows leaves in the gamedata index: which entries, with which keys and types. */
module IndexFiling {
  import opened Basics
  import opened HashIndex

  /**
   What a source's line asks for: an entry, perhaps its key, the type its dotted key is filed with, and whether that
   is recorded for the entry itself too. A heading asks for nothing.
   */
  datatype Filing =
    | Heading
    | Filing(h: nat, key: Option<string>, typename: Option<string>, typed: bool)

  function AddsOf(hash: Hash, f: Filing): Additions {
    match f
    case Heading => NOTHING
    case Filing(h, key, typename, typed) =>
      Both(Additions({}, {h}, if typed then {(h, typename)} else {}),
           if key.Some? then KeyFiles(hash, key.value, typename) else NOTHING)
  }

  /** One row filed: its entry has the row's key, no other key is touched, and new entries have keys the row spells. */
  ghost predicate RowFiles(now: Index, before: Index, hash: Hash, f: Filing)
    requires f.Filing?
  {
    var a := AddsOf(hash, f);
    && now.Keys == before.Keys + a.made
    && now[f.h].key == (if f.key.Some? then f.key else if f.h in before then before[f.h].key else None)
    && (forall g :: g in before && g != f.h ==> now[g].key == before[g].key)
    && (forall g :: g in now && g !in before && g != f.h ==> now[g].key.Some? && now[g].key.value in a.spelled)
    && TypesFrom(now, before, a.typed)
  }

  /** The key of the last of the first n rows for an entry that has one. */
  function LastKey(fs: seq<Filing>, n: nat, h: nat): Option<string>
    requires n <= |fs|
  {
    if n == 0 then None
    else if fs[n - 1].Filing? && fs[n - 1].h == h && fs[n - 1].key.Some? then fs[n - 1].key
    else LastKey(fs, n - 1, h)
  }

  function AllAdd(hash: Hash, fs: seq<Filing>, n: nat): Additions
    requires n <= |fs|
  {
    Additions(set i, k | 0 <= i < n && k in AddsOf(hash, fs[i]).spelled :: k,
              set i, h | 0 <= i < n && h in AddsOf(hash, fs[i]).made :: h,
              set i, x | 0 <= i < n && x in AddsOf(hash, fs[i]).typed :: x)
  }

  /**
   After the first n rows: the entries are those the rows ask for; each has the key of the last row that gives it one;
   other keys that were there are kept, and any other key is one that a row spells; the types are those recorded.
   */
  ghost predicate Indexed(now: Index, before: Index, hash: Hash, fs: seq<Filing>, n: nat)
    requires n <= |fs|
  {
    var a := AllAdd(hash, fs, n);
    && now.Keys == before.Keys + a.made && KeysAre(now, before, fs, n, a.spelled) && TypesFrom(now, before, a.typed)
  }

  ghost predicate KeysAre(now: Index, before: Index, fs: seq<Filing>, n: nat, spelled: set<string>)
    requires n <= |fs| && before.Keys <= now.Keys
  {
    && (forall h :: LastKey(fs, n, h).Some? ==> h in now && now[h].key == LastKey(fs, n, h))
    && (forall h :: h in before && LastKey(fs, n, h).None? ==> now[h].key == before[h].key)
    && (forall h :: h in now && h !in before && LastKey(fs, n, h).None? && now[h].key.Some? ==>
          now[h].key.value in spelled)
  }

  lemma OneMoreAdds(hash: Hash, fs: seq<Filing>, n: nat)
    requires n < |fs|
    ensures AllAdd(hash, fs, n + 1) == Both(AllAdd(hash, fs, n), AddsOf(hash, fs[n]))
  {
    hide AddsOf;
    var a := AllAdd(hash, fs, n + 1);
    var b := Both(AllAdd(hash, fs, n), AddsOf(hash, fs[n]));
    assert a.spelled == b.spelled;
    assert a.made == b.made;
    assert a.typed == b.typed;
  }

  lemma NothingIndexed(ix: Index, hash: Hash, fs: seq<Filing>)
    ensures Indexed(ix, ix, hash, fs, 0)
  {
    assert AllAdd(hash, fs, 0) == NOTHING;
  }

  lemma OneMoreRow(next: Index, now: Index, before: Index, hash: Hash, fs: seq<Filing>, n: nat)
    requires n < |fs| && Indexed(now, before, hash, fs, n)
    requires if fs[n].Heading? then next == now else RowFiles(next, now, hash, fs[n])
    ensures Indexed(next, before, hash, fs, n + 1)
  {
    OneMoreAdds(hash, fs, n);
    var f := fs[n];
    var (a, b) := (AllAdd(hash, fs, n), AddsOf(hash, f));
    assert f.Filing? ==> f.h in b.made;
    if f.Heading? { assert b == NOTHING; }
    hide AllAdd, AddsOf, TypesFrom, KeysAre;
    assert next.Keys == before.Keys + (a.made + b.made);
    if f.Heading? {
      assert a.spelled + b.spelled == a.spelled && a.typed + b.typed == a.typed;
      HeadingKeys(now, before, fs, n, a.spelled);
    } else {
      RowKeys(next, now, before, fs, n, a.spelled, b.spelled);
      TypesFromTrans(before, now, next, a.typed, b.typed);
    }
  }

  lemma HeadingKeys(now: Index, before: Index, fs: seq<Filing>, n: nat, spelled: set<string>)
    requires n < |fs| && before.Keys <= now.Keys && KeysAre(now, before, fs, n, spelled) && fs[n].Heading?
    ensures KeysAre(now, before, fs, n + 1, spelled)
  {
    assert forall h :: LastKey(fs, n + 1, h) == LastKey(fs, n, h);
  }

  lemma RowKeys(next: Index, now: Index, before: Index, fs: seq<Filing>, n: nat, spelled: set<string>,
                more: set<string>)
    requires n < |fs| && fs[n].Filing? && before.Keys <= now.Keys <= next.Keys && fs[n].h in next
    requires KeysAre(now, before, fs, n, spelled)
    requires var f := fs[n];
             && next[f.h].key == (if f.key.Some? then f.key else if f.h in now then now[f.h].key else None)
             && (forall g :: g in now && g != f.h ==> next[g].key == now[g].key)
             && (forall g :: g in next && g !in now && g != f.h ==> next[g].key.Some? && next[g].key.value in more)
    ensures KeysAre(next, before, fs, n + 1, spelled + more)
  {
    var f := fs[n];
    forall h: nat ensures LastKey(fs, n + 1, h) == if h == f.h && f.key.Some? then f.key else LastKey(fs, n, h) {
      LastKeyNext(fs, n, h);
    }
    hide LastKey;
  }

  lemma LastKeyNext(fs: seq<Filing>, n: nat, h: nat)
    requires n < |fs| && fs[n].Filing?
    ensures LastKey(fs, n + 1, h) == if h == fs[n].h && fs[n].key.Some? then fs[n].key else LastKey(fs, n, h)
  {
  }

  lemma TypesFromTrans(a: Index, b: Index, c: Index, one: set<(nat, Option<string>)>, two: set<(nat, Option<string>)>)
    requires TypesFrom(b, a, one) && TypesFrom(c, b, two)
    ensures TypesFrom(c, a, one + two)
  {
  }

  // ----- one row -----

  /** The entry of a row, found or made, with the type the row records for it. */
  function Opened(ix: Index, h: nat, typename: Option<string>, typed: bool): (r: Index)
    ensures h in r
  {
    var a := GetOrCreate(ix, h, None);
    if typed then AddType(a, h, typename) else a
  }

  lemma OpensEntry(ix: Index, hash: Hash, h: nat, typename: Option<string>, typed: bool)
    ensures RowFiles(Opened(ix, h, typename, typed), ix, hash, Filing(h, None, typename, typed))
  {
    assert Opened(ix, h, typename, typed).Keys == ix.Keys + {h};
  }

  lemma FilesKey(ix: Index, hash: Hash, h: nat, key: string, typename: Option<string>, typed: bool)
    ensures var a := SetKey(Opened(ix, h, typename, typed), h, key);
            RowFiles(IngestDottedKey(a, hash, key, typename), ix, hash, Filing(h, Some(key), typename, typed))
  {
    var b := Opened(ix, h, typename, typed);
    var a := SetKey(b, h, key);
    IngestFiles(a, hash, key, typename);
    OpensEntry(ix, hash, h, typename, typed);
    KeyGoesOn(IngestDottedKey(a, hash, key, typename), a, b, ix, hash, h, key, typename, typed);
  }

  lemma KeyGoesOn(r: Index, a: Index, b: Index, ix: Index, hash: Hash, h: nat, key: string, typename: Option<string>,
                  typed: bool)
    requires RowFiles(b, ix, hash, Filing(h, None, typename, typed)) && h in b && a == SetKey(b, h, key)
    requires Files(r, a, KeyFiles(hash, key, typename))
    ensures RowFiles(r, ix, hash, Filing(h, Some(key), typename, typed))
  {
    AddsBoth(hash, h, key, typename, typed);
    var (one, two) := (AddsOf(hash, Filing(h, None, typename, typed)), KeyFiles(hash, key, typename));
    hide KeyFiles, AddsOf, TypesFrom;
    assert a.Keys == b.Keys;
    assert r.Keys == ix.Keys + (one.made + two.made);
    SameTypes(a, b, ix, one.typed);
    TypesFromTrans(ix, a, r, one.typed, two.typed);
  }

  lemma AddsBoth(hash: Hash, h: nat, key: string, typename: Option<string>, typed: bool)
    ensures AddsOf(hash, Filing(h, Some(key), typename, typed)) ==
            Both(AddsOf(hash, Filing(h, None, typename, typed)), KeyFiles(hash, key, typename))
    ensures AddsOf(hash, Filing(h, None, typename, typed)).spelled == {}
    ensures AddsOf(hash, Filing(h, None, typename, typed)).made == {h}
  {
    hide KeyFiles;
    var one := AddsOf(hash, Filing(h, None, typename, typed));
    var own := Additions({}, {h}, if typed then {(h, typename)} else {});
    assert one == own;
  }

  lemma SameTypes(a: Index, b: Index, ix: Index, typed: set<(nat, Option<string>)>)
    requires TypesFrom(b, ix, typed) && a.Keys == b.Keys && forall h :: h in a ==> a[h].types == b[h].types
    ensures TypesFrom(a, ix, typed)
  {
  }

  /** A link changes neither entries nor keys nor types. */
  lemma LinkAside(now: Index, before: Index, hash: Hash, f: Filing, container: nat, member: nat)
    requires f.Filing? && RowFiles(now, before, hash, f) && container in now && member in now
    ensures RowFiles(Link(now, container, member), before, hash, f)
  {
    hide AddsOf;
    var r := Link(now, container, member);
    assert r.Keys == now.Keys;
    SameTypes(r, now, before, AddsOf(hash, f).typed);
  }
}
