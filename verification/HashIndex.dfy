/**
 The gamedata index: entries by hash, and which hashes are members of which structs. Hashing itself stays abstract.
 */
module HashIndex {
  import opened Basics

  datatype Entry = Entry(
    hash: nat, key: Option<string>, types: set<Option<string>>, members: set<nat>, owners: set<nat>)

  type Index = map<nat, Entry>

  type Hash = string -> nat

  // ----- dotted keys -----

  function Split(s: string): (segments: seq<string>)
    ensures segments != []
  {
    if s == "" then [""]
    else
      var rest := Split(s[1..]);
      if s[0] == '.' then [""] + rest else [[s[0]] + rest[0]] + rest[1..]
  }

  function Join(segments: seq<string>): string {
    if segments == [] then ""
    else if |segments| == 1 then segments[0]
    else segments[0] + "." + Join(segments[1..])
  }

  /** Splitting at the dots loses nothing, and leaves no dot. */
  lemma {:induction false} JoinSplit(s: string)
    ensures Join(Split(s)) == s
    ensures forall i :: 0 <= i < |Split(s)| ==> '.' !in Split(s)[i]
    ensures |Split(s)| == 1 <==> '.' !in s
    decreases |s|
  {
    if s != "" {
      var rest := Split(s[1..]);
      JoinSplit(s[1..]);
      assert s == [s[0]] + s[1..];
      if s[0] == '.' {
        assert ([""] + rest)[1..] == rest;
      } else {
        assert ([[s[0]] + rest[0]] + rest[1..])[1..] == rest[1..];
      }
    }
  }

  // ----- the index as a value -----

  function GetOrCreate(ix: Index, hash: nat, key: Option<string>): (r: Index)
    ensures hash in r
  {
    if hash in ix then ix else ix[hash := Entry(hash, key, {}, {}, {})]
  }

  function AddType(ix: Index, hash: nat, name: Option<string>): Index
    requires hash in ix
  {
    ix[hash := ix[hash].(types := ix[hash].types + {name})]
  }

  function SetKey(ix: Index, hash: nat, key: string): Index
    requires hash in ix
  {
    ix[hash := ix[hash].(key := Some(key))]
  }

  function AddMember(ix: Index, container: nat, member: nat): Index
    requires container in ix
  {
    ix[container := ix[container].(members := ix[container].members + {member})]
  }

  function AddOwner(ix: Index, member: nat, container: nat): Index
    requires member in ix
  {
    ix[member := ix[member].(owners := ix[member].owners + {container})]
  }

  function Link(ix: Index, container: nat, member: nat): Index
    requires container in ix && member in ix
  {
    AddOwner(AddMember(ix, container, member), member, container)
  }

  predicate Contains(ix: Index, container: nat, member: nat) {
    container in ix && member in ix[container].members
  }

  predicate OwnedBy(ix: Index, member: nat, container: nat) {
    member in ix && container in ix[member].owners
  }

  /** Entries are filed under their hash, known keys hash to their entry, and members and owners mirror each other. */
  ghost predicate Sound(ix: Index, hash: Hash) {
    && (forall h :: h in ix ==> ix[h].hash == h && (ix[h].key.Some? ==> hash(ix[h].key.value) == h))
    && (forall c, m :: Contains(ix, c, m) <==> OwnedBy(ix, m, c))
  }

  /** In a sound index every hash an entry refers to has an entry. */
  lemma ReferencesResolve(ix: Index, hash: Hash, h: nat, other: nat)
    requires Sound(ix, hash) && h in ix && (other in ix[h].members || other in ix[h].owners)
    ensures other in ix
  {
    if other in ix[h].members { assert Contains(ix, h, other); } else { assert OwnedBy(ix, h, other); }
  }

  /** Nothing known is forgotten: entries, keys, types and links only grow. */
  ghost predicate Extends(now: Index, before: Index) {
    forall h :: h in before ==>
      && h in now && (before[h].key.Some? ==> now[h].key == before[h].key)
      && before[h].types <= now[h].types && before[h].members <= now[h].members && before[h].owners <= now[h].owners
  }

  // ----- what one dotted key adds -----

  function Named(typename: Option<string>): bool {
    typename.Some? && typename.value != ""
  }

  /** One round of the loop over the segments. */
  function IngestSegment(ix: Index, hash: Hash, segments: seq<string>, i: nat, typename: Option<string>): Index
    requires i < |segments|
  {
    var seg := segments[i];
    var member := hash(seg);
    var a := GetOrCreate(ix, member, Some(seg));
    var b := if Named(typename) && seg == segments[|segments| - 1] then AddType(a, member, typename) else a;
    var containing := Join(segments[..i]);
    if containing == "" then b
    else
      var container := hash(containing);
      Link(AddType(GetOrCreate(b, container, Some(containing)), container, Some("Struct")), container, member)
  }

  function IngestSegments(ix: Index, hash: Hash, segments: seq<string>, n: nat, typename: Option<string>): Index
    requires n <= |segments|
  {
    if n == 0 then ix
    else IngestSegment(IngestSegments(ix, hash, segments, n - 1, typename), hash, segments, n - 1, typename)
  }

  function IngestDottedKey(ix: Index, hash: Hash, key: string, typename: Option<string>): Index {
    var a := if Named(typename) then AddType(GetOrCreate(ix, hash(key), Some(key)), hash(key), typename) else ix;
    if '.' !in key then a else IngestSegments(a, hash, Split(key), |Split(key)|, typename)
  }

  lemma GetOrCreateKeeps(ix: Index, hash: Hash, h: nat, key: Option<string>)
    requires Sound(ix, hash) && (key.Some? ==> hash(key.value) == h)
    ensures Sound(GetOrCreate(ix, h, key), hash) && Extends(GetOrCreate(ix, h, key), ix)
    ensures forall c, m :: Contains(GetOrCreate(ix, h, key), c, m) <==> Contains(ix, c, m)
  {
    var r := GetOrCreate(ix, h, key);
    forall c, m ensures (Contains(r, c, m) <==> Contains(ix, c, m)) && (OwnedBy(r, m, c) <==> OwnedBy(ix, m, c)) {
    }
  }

  lemma AddTypeKeeps(ix: Index, hash: Hash, h: nat, name: Option<string>)
    requires Sound(ix, hash) && h in ix
    ensures Sound(AddType(ix, h, name), hash) && Extends(AddType(ix, h, name), ix)
    ensures forall c, m :: Contains(AddType(ix, h, name), c, m) <==> Contains(ix, c, m)
  {
    var r := AddType(ix, h, name);
    forall c, m ensures (Contains(r, c, m) <==> Contains(ix, c, m)) && (OwnedBy(r, m, c) <==> OwnedBy(ix, m, c)) {
    }
  }

  lemma SetKeyKeeps(ix: Index, hash: Hash, h: nat, key: string)
    requires Sound(ix, hash) && h in ix && hash(key) == h
    ensures Sound(SetKey(ix, h, key), hash)
    ensures forall c, m :: Contains(SetKey(ix, h, key), c, m) <==> Contains(ix, c, m)
  {
    var r := SetKey(ix, h, key);
    forall c, m ensures (Contains(r, c, m) <==> Contains(ix, c, m)) && (OwnedBy(r, m, c) <==> OwnedBy(ix, m, c)) {
    }
  }

  lemma LinkKeeps(ix: Index, hash: Hash, container: nat, member: nat)
    requires Sound(ix, hash) && container in ix && member in ix
    ensures Sound(Link(ix, container, member), hash) && Extends(Link(ix, container, member), ix)
    ensures forall c, m :: Contains(Link(ix, container, member), c, m) <==>
             Contains(ix, c, m) || (c == container && m == member)
  {
    var r := Link(ix, container, member);
    forall c, m
      ensures Contains(r, c, m) <==> Contains(ix, c, m) || (c == container && m == member)
      ensures OwnedBy(r, m, c) <==> OwnedBy(ix, m, c) || (c == container && m == member)
    {
    }
  }

  /** The link one round adds, if any. */
  predicate Adds(hash: Hash, segments: seq<string>, i: nat, c: nat, m: nat)
    requires i < |segments|
  {
    Join(segments[..i]) != "" && c == hash(Join(segments[..i])) && m == hash(segments[i])
  }

  lemma ExtendsTrans(a: Index, b: Index, c: Index)
    requires Extends(b, a) && Extends(c, b)
    ensures Extends(c, a)
  {
  }

  lemma SegmentKeeps(ix: Index, hash: Hash, segments: seq<string>, i: nat, typename: Option<string>)
    requires i < |segments| && Sound(ix, hash)
    ensures var r := IngestSegment(ix, hash, segments, i, typename);
            && Sound(r, hash) && Extends(r, ix)
            && forall c, m :: Contains(r, c, m) <==> Contains(ix, c, m) || Adds(hash, segments, i, c, m)
  {
    hide Sound, Extends, Link, Contains, Join;
    var seg := segments[i];
    var member := hash(seg);
    var a := GetOrCreate(ix, member, Some(seg));
    GetOrCreateKeeps(ix, hash, member, Some(seg));
    var b := if Named(typename) && seg == segments[|segments| - 1] then AddType(a, member, typename) else a;
    if b != a { AddTypeKeeps(a, hash, member, typename); ExtendsTrans(ix, a, b); }
    var containing := Join(segments[..i]);
    if containing != "" {
      var container := hash(containing);
      var c := GetOrCreate(b, container, Some(containing));
      GetOrCreateKeeps(b, hash, container, Some(containing));
      var d := AddType(c, container, Some("Struct"));
      AddTypeKeeps(c, hash, container, Some("Struct"));
      LinkKeeps(d, hash, container, member);
      ExtendsTrans(ix, b, c);
      ExtendsTrans(ix, c, d);
      ExtendsTrans(ix, d, Link(d, container, member));
    }
  }

  lemma {:induction false} SegmentsKeep(ix: Index, hash: Hash, segments: seq<string>, n: nat, typename: Option<string>)
    requires n <= |segments| && Sound(ix, hash)
    ensures var r := IngestSegments(ix, hash, segments, n, typename);
            && Sound(r, hash) && Extends(r, ix)
            && forall c, m :: Contains(r, c, m) <==>
                 Contains(ix, c, m) || exists i :: 0 <= i < n && Adds(hash, segments, i, c, m)
    decreases n
  {
    hide Sound, Contains, Adds, IngestSegment;
    if n > 0 {
      hide Extends;
      SegmentsKeep(ix, hash, segments, n - 1, typename);
      var before := IngestSegments(ix, hash, segments, n - 1, typename);
      SegmentKeeps(before, hash, segments, n - 1, typename);
      ExtendsTrans(ix, before, IngestSegments(ix, hash, segments, n, typename));
    }
  }

  /**
   Ingesting a dotted key keeps the index sound and forgets nothing. The links it adds are those from each non-empty
   prefix of the key up to a dot to the segment after that dot, and no others.
   */
  lemma IngestLinksPrefixes(ix: Index, hash: Hash, key: string, typename: Option<string>)
    requires Sound(ix, hash)
    ensures var (r, segments) := (IngestDottedKey(ix, hash, key, typename), Split(key));
            && Sound(r, hash) && Extends(r, ix)
            && forall c, m :: Contains(r, c, m) <==>
                 Contains(ix, c, m) || exists i :: 0 < i < |segments| && Adds(hash, segments, i, c, m)
  {
    hide Sound, Extends, Contains, Split, IngestSegments, Join;
    var segments := Split(key);
    JoinSplit(key);
    var a := ix;
    ExtendsSelf(ix);
    if Named(typename) {
      var b := GetOrCreate(ix, hash(key), Some(key));
      GetOrCreateKeeps(ix, hash, hash(key), Some(key));
      a := AddType(b, hash(key), typename);
      AddTypeKeeps(b, hash, hash(key), typename);
      ExtendsTrans(ix, b, a);
    }
    if '.' in key {
      SegmentsKeep(a, hash, segments, |segments|, typename);
      ExtendsTrans(ix, a, IngestDottedKey(ix, hash, key, typename));
      NoPrefix(hash, segments);
    }
  }

  lemma ExtendsSelf(ix: Index)
    ensures Extends(ix, ix)
  {
  }

  lemma NoPrefix(hash: Hash, segments: seq<string>)
    requires segments != []
    ensures forall c, m :: !Adds(hash, segments, 0, c, m)
  {
  }

  // ----- which entries, keys and types one dotted key adds -----

  predicate HasType(ix: Index, h: nat, name: Option<string>) {
    h in ix && name in ix[h].types
  }

  /** Keys that were there stay as they are; the new entries are those made, with keys that were spelled out. */
  ghost predicate KeysFrom(now: Index, before: Index, spelled: set<string>, made: set<nat>) {
    && now.Keys == before.Keys + made
    && (forall h :: h in before ==> now[h].key == before[h].key)
    && (forall h :: h in now && h !in before ==> now[h].key.Some? && now[h].key.value in spelled)
  }

  ghost predicate TypesFrom(now: Index, before: Index, typed: set<(nat, Option<string>)>) {
    forall h: nat, name :: HasType(now, h, name) <==> HasType(before, h, name) || (h, name) in typed
  }

  /** What filing something adds: entries, the keys they may get, and types. */
  datatype Additions = Additions(spelled: set<string>, made: set<nat>, typed: set<(nat, Option<string>)>)

  const NOTHING: Additions := Additions({}, {}, {})

  function Both(a: Additions, b: Additions): Additions {
    Additions(a.spelled + b.spelled, a.made + b.made, a.typed + b.typed)
  }

  ghost predicate Files(now: Index, before: Index, a: Additions) {
    KeysFrom(now, before, a.spelled, a.made) && TypesFrom(now, before, a.typed)
  }

  lemma FilesBoth(a: Index, b: Index, c: Index, one: Additions, two: Additions)
    requires Files(b, a, one) && Files(c, b, two)
    ensures Files(c, a, Both(one, two))
  {
    assert c.Keys == a.Keys + (one.made + two.made);
  }

  lemma FilesNothing(ix: Index)
    ensures Files(ix, ix, NOTHING)
  {
  }

  lemma GetOrCreateFiles(ix: Index, h: nat, k: string)
    ensures Files(GetOrCreate(ix, h, Some(k)), ix, Additions({k}, {h}, {}))
  {
  }

  lemma AddTypeFiles(ix: Index, h: nat, name: Option<string>)
    requires h in ix
    ensures Files(AddType(ix, h, name), ix, Additions({}, {}, {(h, name)}))
  {
  }

  lemma LinkFiles(ix: Index, container: nat, member: nat)
    requires container in ix && member in ix
    ensures Files(Link(ix, container, member), ix, NOTHING)
  {
  }

  /** One round files the segment, typed like the whole key if it is the last, and what holds it as a `Struct`. */
  function SegmentAdds(hash: Hash, segments: seq<string>, i: nat, typename: Option<string>): Additions
    requires i < |segments|
  {
    var (seg, containing) := (segments[i], Join(segments[..i]));
    var typed := if Named(typename) && seg == segments[|segments| - 1] then {(hash(seg), typename)} else {};
    var own := Additions({seg}, {hash(seg)}, typed);
    if containing == "" then own
    else Both(own, Additions({containing}, {hash(containing)}, {(hash(containing), Some("Struct"))}))
  }

  lemma SegmentFiles(ix: Index, hash: Hash, segments: seq<string>, i: nat, typename: Option<string>)
    requires i < |segments|
    ensures Files(IngestSegment(ix, hash, segments, i, typename), ix, SegmentAdds(hash, segments, i, typename))
  {
    hide Join, Files, Link;
    var seg := segments[i];
    var member := hash(seg);
    var a := GetOrCreate(ix, member, Some(seg));
    GetOrCreateFiles(ix, member, seg);
    var typed := Named(typename) && seg == segments[|segments| - 1];
    var typing := if typed then Additions({}, {}, {(member, typename)}) else NOTHING;
    var b := if typed then AddType(a, member, typename) else a;
    if typed { AddTypeFiles(a, member, typename); } else { FilesNothing(a); }
    FilesBoth(ix, a, b, Additions({seg}, {member}, {}), typing);
    var own := Both(Additions({seg}, {member}, {}), typing);
    assert own == Additions({seg}, {member}, if typed then {(member, typename)} else {});
    var containing := Join(segments[..i]);
    if containing != "" { HolderFiles(ix, b, hash(containing), containing, member, own); }
  }

  lemma HolderFiles(ix: Index, b: Index, container: nat, containing: string, member: nat, own: Additions)
    requires Files(b, ix, own) && member in b
    ensures var d := AddType(GetOrCreate(b, container, Some(containing)), container, Some("Struct"));
            Files(Link(d, container, member), ix,
                  Both(own, Additions({containing}, {container}, {(container, Some("Struct"))})))
  {
    hide Files, Link;
    var c := GetOrCreate(b, container, Some(containing));
    GetOrCreateFiles(b, container, containing);
    var d := AddType(c, container, Some("Struct"));
    AddTypeFiles(c, container, Some("Struct"));
    var (named, typed) := (Additions({containing}, {container}, {}), Additions({}, {}, {(container, Some("Struct"))}));
    FilesBoth(b, c, d, named, typed);
    LinkFiles(d, container, member);
    FilesBoth(b, d, Link(d, container, member), Both(named, typed), NOTHING);
    assert Both(Both(named, typed), NOTHING) == Additions({containing}, {container}, {(container, Some("Struct"))});
    FilesBoth(ix, b, Link(d, container, member), own, Both(Both(named, typed), NOTHING));
  }

  /** What the first n rounds add. */
  function SegmentsAdd(hash: Hash, segments: seq<string>, n: nat, typename: Option<string>): Additions
    requires n <= |segments|
  {
    Additions(set i, k | 0 <= i < n && k in SegmentAdds(hash, segments, i, typename).spelled :: k,
              set i, h | 0 <= i < n && h in SegmentAdds(hash, segments, i, typename).made :: h,
              set i, x | 0 <= i < n && x in SegmentAdds(hash, segments, i, typename).typed :: x)
  }

  lemma OneMoreSegment(hash: Hash, segments: seq<string>, n: nat, typename: Option<string>)
    requires n < |segments|
    ensures SegmentsAdd(hash, segments, n + 1, typename) ==
            Both(SegmentsAdd(hash, segments, n, typename), SegmentAdds(hash, segments, n, typename))
  {
    hide SegmentAdds;
    var a := SegmentsAdd(hash, segments, n + 1, typename);
    var b := Both(SegmentsAdd(hash, segments, n, typename), SegmentAdds(hash, segments, n, typename));
    assert a.spelled == b.spelled;
    assert a.made == b.made;
    assert a.typed == b.typed;
  }

  lemma {:induction false} SegmentsFile(ix: Index, hash: Hash, segments: seq<string>, n: nat, typename: Option<string>)
    requires n <= |segments|
    ensures Files(IngestSegments(ix, hash, segments, n, typename), ix, SegmentsAdd(hash, segments, n, typename))
    decreases n
  {
    hide Files, IngestSegment, SegmentAdds;
    if n == 0 {
      assert SegmentsAdd(hash, segments, 0, typename) == NOTHING;
      FilesNothing(ix);
    } else {
      SegmentsFile(ix, hash, segments, n - 1, typename);
      var before := IngestSegments(ix, hash, segments, n - 1, typename);
      SegmentFiles(before, hash, segments, n - 1, typename);
      OneMoreSegment(hash, segments, n - 1, typename);
      hide SegmentsAdd;
      FilesBoth(ix, before, IngestSegments(ix, hash, segments, n, typename),
                SegmentsAdd(hash, segments, n - 1, typename), SegmentAdds(hash, segments, n - 1, typename));
    }
  }

  /** The prefixes of a dotted key, each up to a dot. */
  function PrefixesOf(key: string): set<string> {
    set i | 0 <= i < |Split(key)| && Join(Split(key)[..i]) != "" :: Join(Split(key)[..i])
  }

  function SegmentsOf(key: string): set<string> {
    set s | s in Split(key)
  }

  function HashesOf(hash: Hash, keys: set<string>): set<nat> {
    set k <- keys :: hash(k)
  }

  function Typed(hash: Hash, keys: set<string>, name: Option<string>): set<(nat, Option<string>)> {
    set k <- keys :: (hash(k), name)
  }

  /**
   A dotted key files its segments and prefixes, and itself if it has a type; that type goes to the key and to its
   last segment, and every prefix is a `Struct`.
   */
  function KeyFiles(hash: Hash, key: string, typename: Option<string>): Additions {
    var own := if Named(typename) then {key} else {};
    if '.' !in key then Additions(own, HashesOf(hash, own), Typed(hash, own, typename))
    else
      var last := if Named(typename) then {Split(key)[|Split(key)| - 1]} else {};
      var filed := own + SegmentsOf(key) + PrefixesOf(key);
      Additions(filed, HashesOf(hash, filed),
                Typed(hash, own + last, typename) + Typed(hash, PrefixesOf(key), Some("Struct")))
  }

  lemma PartsSpelled(hash: Hash, key: string, typename: Option<string>)
    ensures SegmentsAdd(hash, Split(key), |Split(key)|, typename).spelled == SegmentsOf(key) + PrefixesOf(key)
  {
    hide Split, Join;
    var segments := Split(key);
    var a := SegmentsAdd(hash, segments, |segments|, typename).spelled;
    forall k ensures k in a <==> k in SegmentsOf(key) + PrefixesOf(key) {
      if k in SegmentsOf(key) {
        var i :| 0 <= i < |segments| && segments[i] == k;
        assert k in SegmentAdds(hash, segments, i, typename).spelled;
      }
      if k in PrefixesOf(key) {
        var i :| 0 <= i < |segments| && Join(segments[..i]) != "" && Join(segments[..i]) == k;
        assert k in SegmentAdds(hash, segments, i, typename).spelled;
      }
      if k in a {
        var i :| 0 <= i < |segments| && k in SegmentAdds(hash, segments, i, typename).spelled;
        assert k == segments[i] || (k == Join(segments[..i]) && k != "");
      }
    }
  }

  lemma PartsMade(hash: Hash, key: string, typename: Option<string>)
    ensures SegmentsAdd(hash, Split(key), |Split(key)|, typename).made ==
            HashesOf(hash, SegmentsAdd(hash, Split(key), |Split(key)|, typename).spelled)
  {
    hide Split, Join;
    var segments := Split(key);
    var a := SegmentsAdd(hash, segments, |segments|, typename);
    forall h ensures h in a.made <==> h in HashesOf(hash, a.spelled) {
      if h in a.made {
        var i :| 0 <= i < |segments| && h in SegmentAdds(hash, segments, i, typename).made;
        var b := SegmentAdds(hash, segments, i, typename);
        assert segments[i] in b.spelled && (Join(segments[..i]) != "" ==> Join(segments[..i]) in b.spelled);
        assert segments[i] in a.spelled && (Join(segments[..i]) != "" ==> Join(segments[..i]) in a.spelled);
      }
      if h in HashesOf(hash, a.spelled) {
        var k :| k in a.spelled && hash(k) == h;
        var i :| 0 <= i < |segments| && k in SegmentAdds(hash, segments, i, typename).spelled;
        assert h in SegmentAdds(hash, segments, i, typename).made;
      }
    }
  }

  lemma PartsTyped(hash: Hash, key: string, typename: Option<string>)
    ensures var segments := Split(key);
            SegmentsAdd(hash, segments, |segments|, typename).typed ==
            Typed(hash, if Named(typename) then {segments[|segments| - 1]} else {}, typename) +
            Typed(hash, PrefixesOf(key), Some("Struct"))
  {
    hide Split, Join;
    var segments := Split(key);
    var n := |segments|;
    var a := SegmentsAdd(hash, segments, n, typename).typed;
    var own := Typed(hash, if Named(typename) then {segments[n - 1]} else {}, typename);
    var structs := Typed(hash, PrefixesOf(key), Some("Struct"));
    forall x ensures x in a <==> x in own + structs {
      if x in own {
        assert x in SegmentAdds(hash, segments, n - 1, typename).typed;
      }
      if x in structs {
        var k :| k in PrefixesOf(key) && x == (hash(k), Some("Struct"));
        var i :| 0 <= i < n && Join(segments[..i]) != "" && Join(segments[..i]) == k;
        assert x in SegmentAdds(hash, segments, i, typename).typed;
      }
      if x in a {
        var i :| 0 <= i < n && x in SegmentAdds(hash, segments, i, typename).typed;
        assert x == (hash(segments[i]), typename) ||
               (Join(segments[..i]) in PrefixesOf(key) && x == (hash(Join(segments[..i])), Some("Struct")));
      }
    }
  }

  /** Ingesting a dotted key makes exactly these entries, with these keys if they are new, and records these types. */
  lemma IngestFiles(ix: Index, hash: Hash, key: string, typename: Option<string>)
    ensures Files(IngestDottedKey(ix, hash, key, typename), ix, KeyFiles(hash, key, typename))
  {
    hide Files, Split, SegmentsAdd, SegmentsOf, PrefixesOf, IngestSegments;
    var own := if Named(typename) then {key} else {};
    var filed := Additions(own, HashesOf(hash, own), Typed(hash, own, typename));
    var a := ix;
    if Named(typename) {
      var b := GetOrCreate(ix, hash(key), Some(key));
      GetOrCreateFiles(ix, hash(key), key);
      a := AddType(b, hash(key), typename);
      AddTypeFiles(b, hash(key), typename);
      FilesBoth(ix, b, a, Additions({key}, {hash(key)}, {}), Additions({}, {}, {(hash(key), typename)}));
      assert Both(Additions({key}, {hash(key)}, {}), Additions({}, {}, {(hash(key), typename)})) == filed;
    } else {
      FilesNothing(ix);
      assert filed == NOTHING;
    }
    if '.' in key {
      var segments := Split(key);
      SegmentsFile(a, hash, segments, |segments|, typename);
      PartsSpelled(hash, key, typename);
      PartsMade(hash, key, typename);
      PartsTyped(hash, key, typename);
      var parts := SegmentsAdd(hash, segments, |segments|, typename);
      FilesBoth(ix, a, IngestDottedKey(ix, hash, key, typename), filed, parts);
      var all := KeyFiles(hash, key, typename);
      assert Both(filed, parts).spelled == all.spelled;
      assert Both(filed, parts).made == all.made;
      assert Both(filed, parts).typed == all.typed;
    }
  }
}
