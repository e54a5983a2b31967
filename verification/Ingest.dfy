/** Building the gamedata index from its sources, and writing it out. */
module IngestImpl {
  import opened Basics
  import opened HashIndex
  import opened IndexFiling

  const HASH_TYPES: set<string> := {
    "Enum", "EnumArray", "Struct", "StructArray", "Binary", "BinaryArray",
    "Bool", "BoolArray", "Bool64bitKey", "BoolExp", "SaveTypeHash",
    "Int", "IntArray", "Int64", "Int64Array", "UInt", "UIntArray", "UInt64", "UInt64Array",
    "Float", "FloatArray", "Vector2", "Vector2Array", "Vector3", "Vector3Array", "Vector3f",
    "StringArray", "String16", "String16Array", "String32", "String32Array", "String64", "String64Array",
    "WString16", "WString16Array", "WString32", "WString32Array", "WString64", "WString64Array"
  }

  /** A line of the first source: a change of type, a row, or an indented row. */
  datatype SourceLine =
    | TypeLine(name: string)
    | Row(hash: nat, key: Option<string>)
    | Indented(hash: nat, key: Option<string>)

  /** A row of the other sources; an unknown or empty key is none. */
  datatype TypedRow = TypedRow(hash: nat, typename: string, key: Option<string>)

  datatype Record = Record(key: Option<string>, types: set<Option<string>>, members: seq<string>, owners: seq<string>)

  /** The links a dotted key stands for. */
  predicate KeyAdds(hash: Hash, key: Option<string>, c: nat, m: nat) {
    key.Some? && exists i :: 0 < i < |Split(key.value)| && Adds(hash, Split(key.value), i, c, m)
  }

  /** The type heading above a line of the first source. */
  function TypeBefore(lines: seq<SourceLine>, n: nat): Option<string>
    requires n <= |lines|
  {
    if n == 0 then None else if lines[n - 1].TypeLine? then Some(lines[n - 1].name) else TypeBefore(lines, n - 1)
  }

  /** The struct that indented rows there belong to: the last row under a struct heading, wherever that was. */
  function OpenBefore(lines: seq<SourceLine>, n: nat): Option<nat>
    requires n <= |lines|
  {
    if n == 0 then None
    else if lines[n - 1].Row? && TypeBefore(lines, n - 1) == Some("Struct") then Some(lines[n - 1].hash)
    else OpenBefore(lines, n - 1)
  }

  /** The links a line of the first source stands for. */
  predicate LineAdds(hash: Hash, lines: seq<SourceLine>, i: nat, c: nat, m: nat)
    requires i < |lines|
  {
    match lines[i]
    case TypeLine(_) => false
    case Row(_, key) => KeyAdds(hash, key, c, m)
    case Indented(h, key) => (OpenBefore(lines, i) == Some(c) && m == h) || KeyAdds(hash, key, c, m)
  }

  predicate LinesAdd(hash: Hash, lines: seq<SourceLine>, n: nat, c: nat, m: nat)
    requires n <= |lines|
  {
    exists i :: 0 <= i < n && LineAdds(hash, lines, i, c, m)
  }

  lemma OneMoreLine(hash: Hash, lines: seq<SourceLine>, n: nat)
    requires n < |lines|
    ensures forall c, m :: LinesAdd(hash, lines, n + 1, c, m) <==>
             LinesAdd(hash, lines, n, c, m) || LineAdds(hash, lines, n, c, m)
  {
    hide LineAdds;
  }

  lemma NoLines(hash: Hash, lines: seq<SourceLine>)
    ensures forall c, m :: !LinesAdd(hash, lines, 0, c, m)
  {
  }

  /** A line the ingest accepts: a known type, a key that matches its hash, and an open struct for an indented row. */
  predicate LineOk(hash: Hash, lines: seq<SourceLine>, i: nat)
    requires i < |lines|
  {
    match lines[i]
    case TypeLine(name) => name in HASH_TYPES
    case Row(h, key) => key.Some? ==> hash(key.value) == h
    case Indented(h, key) =>
      TypeBefore(lines, i) == Some("Struct") && OpenBefore(lines, i).Some? && (key.Some? ==> hash(key.value) == h)
  }

  /** A row of the second source that is accepted: without a key, or with one that matches its hash and a known type. */
  predicate RowOk(hash: Hash, row: TypedRow) {
    row.key.Some? ==> hash(row.key.value) == row.hash && (row.typename != "" ==> row.typename in HASH_TYPES)
  }

  /** What the lines of the first source ask for, each under its heading. */
  function Filings(lines: seq<SourceLine>): (fs: seq<Filing>)
    ensures |fs| == |lines|
  {
    seq(|lines|, i requires 0 <= i < |lines| =>
      match lines[i]
      case TypeLine(_) => Heading
      case Row(h, key) => Filing(h, key, TypeBefore(lines, i), true)
      case Indented(h, key) => Filing(h, key, Some("Struct"), false))
  }

  function RowFilings(rows: seq<TypedRow>): (fs: seq<Filing>)
    ensures |fs| == |rows|
  {
    seq(|rows|, i requires 0 <= i < |rows| => Filing(rows[i].hash, rows[i].key, Some(rows[i].typename), true))
  }

  // ----- names -----

  function HexDigit(d: nat): char
    requires d < 16
  {
    if d < 10 then ('0' as int + d) as char else ('a' as int + d - 10) as char
  }

  function HexDigits(n: nat): (s: string)
    ensures s != ""
  {
    if n < 16 then [HexDigit(n)] else HexDigits(n / 16) + [HexDigit(n % 16)]
  }

  /** A hash as the language's own `hex` spells it. */
  function Hex(n: nat): string {
    "0x" + HexDigits(n)
  }

  predicate Known(ix: Index, h: nat)
    requires h in ix
  {
    ix[h].key.Some? && ix[h].key.value != ""
  }

  function NameOf(ix: Index, h: nat): string
    requires h in ix
  {
    if Known(ix, h) then ix[h].key.value else Hex(h)
  }

  predicate IsHexDigit(c: char) {
    '0' <= c <= '9' || 'a' <= c <= 'f'
  }

  function HexDigitValue(c: char): nat
    requires IsHexDigit(c)
  {
    if c <= '9' then c as nat - '0' as nat else c as nat - 'a' as nat + 10
  }

  function HexValue(s: string): nat
    requires forall c <- s :: IsHexDigit(c)
  {
    if s == "" then 0 else 16 * HexValue(s[..|s| - 1]) + HexDigitValue(s[|s| - 1])
  }

  /** A spelled hash reads back, in lower-case digits. */
  lemma {:induction false} HexReadsBack(n: nat)
    ensures (forall c <- HexDigits(n) :: IsHexDigit(c)) && HexValue(HexDigits(n)) == n
    ensures Hex(n)[..2] == "0x" && Hex(n)[2..] == HexDigits(n)
    decreases n
  {
    var s := HexDigits(n);
    if n < 16 {
      assert s[..0] == "";
    } else {
      HexReadsBack(n / 16);
      assert s[..|s| - 1] == HexDigits(n / 16) && s[|s| - 1] == HexDigit(n % 16);
    }
  }

  lemma HexDiffers(a: nat, b: nat)
    requires Hex(a) == Hex(b)
    ensures a == b
  {
    HexReadsBack(a);
    HexReadsBack(b);
  }

  /** No two entries are written the same way. */
  ghost predicate NamesDiffer(ix: Index) {
    forall a, b :: a in ix && b in ix && NameOf(ix, a) == NameOf(ix, b) ==> a == b
  }

  /** Names tell entries apart exactly when no known key is spelled like the hash of an entry without one. */
  lemma NamesDifferIff(ix: Index, hash: Hash)
    requires Sound(ix, hash)
    ensures NamesDiffer(ix) <==>
            !exists a, b :: a in ix && b in ix && Known(ix, a) && !Known(ix, b) && ix[a].key.value == Hex(b)
  {
    forall a, b | a in ix && b in ix && NameOf(ix, a) == NameOf(ix, b) && Known(ix, a) == Known(ix, b) ensures a == b {
      if !Known(ix, a) { HexDiffers(a, b); }
    }
    if a, b :| a in ix && b in ix && Known(ix, a) && !Known(ix, b) && ix[a].key.value == Hex(b) {
      assert NameOf(ix, a) == NameOf(ix, b);
    }
  }

  /** A key that reads "0x5" and an unknown hash 5 are both written "0x5". */
  lemma NamesCanCollide(hash: Hash)
    requires hash("0x5") != 5
    ensures var ix := GetOrCreate(GetOrCreate(map[], 5, None), hash("0x5"), Some("0x5"));
            Sound(ix, hash) && NameOf(ix, 5) == NameOf(ix, hash("0x5")) == "0x5" && !NamesDiffer(ix)
  {
    GetOrCreateKeeps(map[], hash, 5, None);
    GetOrCreateKeeps(GetOrCreate(map[], 5, None), hash, hash("0x5"), Some("0x5"));
    assert HexDigits(5) == "5";
  }

  /** Each of the hashes is there once. */
  ghost predicate Lists(order: seq<nat>, hs: set<nat>) {
    (forall h :: h in order <==> h in hs) && forall i, j :: 0 <= i < j < |order| ==> order[i] != order[j]
  }

  ghost predicate NamesInOrder(names: seq<string>, ix: Index, order: seq<nat>) {
    |names| == |order| && forall i :: 0 <= i < |order| ==> order[i] in ix && names[i] == NameOf(ix, order[i])
  }

  /** The names are those of the hashes, one each, in some order. */
  ghost predicate AreNames(names: seq<string>, ix: Index, hs: set<nat>) {
    exists order: seq<nat> :: Lists(order, hs) && NamesInOrder(names, ix, order)
  }

  /** A record says what the index knows of an entry, with names for hashes. */
  ghost predicate Describes(r: Record, ix: Index, h: nat)
    requires h in ix
  {
    && r.key == ix[h].key && r.types == ix[h].types
    && ix[h].members <= ix.Keys && AreNames(r.members, ix, ix[h].members)
    && ix[h].owners <= ix.Keys && AreNames(r.owners, ix, ix[h].owners)
  }

  /** Where names differ, those written for an entry determine its members and owners. */
  lemma NamesTellApart(ix: Index, names: seq<string>, hs: set<nat>, h: nat)
    requires NamesDiffer(ix) && AreNames(names, ix, hs) && h in ix
    ensures NameOf(ix, h) in names <==> h in hs
  {
    var order: seq<nat> :| Lists(order, hs) && NamesInOrder(names, ix, order);
    if NameOf(ix, h) in names {
      var i :| 0 <= i < |names| && names[i] == NameOf(ix, h);
      assert order[i] == h;
    }
    if h in hs {
      var i :| 0 <= i < |order| && order[i] == h;
      assert names[i] == NameOf(ix, h);
    }
  }

  class GameDataHashInfo {
    const murmur32: Hash
    var entries: Index

    ghost predicate Valid()
      reads this
    {
      Sound(entries, murmur32)
    }

    constructor (murmur32: Hash)
      ensures Valid() && entries == map[] && this.murmur32 == murmur32
    {
      this.murmur32 := murmur32;
      entries := map[];
    }

    /** Looks an entry up by hash or key, making it if there is none; fails when neither is given or they disagree. */
    method GetOrCreateEntry(hash: Option<nat>, key: Option<string>) returns (r: Option<nat>)
      requires Valid()
      modifies this
      ensures Valid()
      ensures r == if hash.None? then if key.None? then None else Some(murmur32(key.value))
                   else if key.Some? && murmur32(key.value) != hash.value then None else hash
      ensures entries == if r.None? then old(entries) else GetOrCreate(old(entries), r.value, key)
    {
      if key.Some? && hash.Some? {
        if murmur32(key.value) != hash.value {
          return None;
        }
        r := hash;
      } else if hash.None? {
        if key.None? {
          return None;
        }
        r := Some(murmur32(key.value));
      } else {
        r := hash;
      }
      GetOrCreateKeeps(entries, murmur32, r.value, key);
      if r.value !in entries {
        entries := entries[r.value := Entry(r.value, key, {}, {}, {})];
      }
    }

    method AddTypeTo(h: nat, name: Option<string>)
      requires Valid() && h in entries
      modifies this
      ensures Valid() && entries == AddType(old(entries), h, name)
    {
      AddTypeKeeps(entries, murmur32, h, name);
      entries := entries[h := entries[h].(types := entries[h].types + {name})];
    }

    /** Refuses a key that does not hash to the entry. */
    method SetKeyOf(h: nat, key: string) returns (ok: bool)
      requires Valid() && h in entries
      modifies this
      ensures Valid() && (ok <==> murmur32(key) == h)
      ensures entries == if ok then SetKey(old(entries), h, key) else old(entries)
    {
      if murmur32(key) != entries[h].hash {
        return false;
      }
      SetKeyKeeps(entries, murmur32, h, key);
      entries := entries[h := entries[h].(key := Some(key))];
      return true;
    }

    /** Both directions of a link are written in turn. */
    method LinkEntries(container: nat, member: nat)
      requires Valid() && container in entries && member in entries
      modifies this
      ensures Valid() && entries == Link(old(entries), container, member)
    {
      LinkKeeps(entries, murmur32, container, member);
      entries := entries[container := entries[container].(members := entries[container].members + {member})];
      entries := entries[member := entries[member].(owners := entries[member].owners + {container})];
    }

    method IngestSegmentOf(segments: seq<string>, i: nat, typename: Option<string>)
      requires Valid() && i < |segments|
      modifies this
      ensures Valid() && entries == IngestSegment(old(entries), murmur32, segments, i, typename)
    {
      hide Link, Sound, Join;
      var seg := segments[i];
      var member := GetOrCreateEntry(None, Some(seg));
      if Named(typename) && seg == segments[|segments| - 1] {
        AddTypeTo(member.value, typename);
      }
      var containing := Join(segments[..i]);
      if containing == "" {
        return;
      }
      var container := GetOrCreateEntry(None, Some(containing));
      AddTypeTo(container.value, Some("Struct"));
      LinkEntries(container.value, member.value);
    }

    /** Fails only on an unknown type, before anything is changed. */
    method IngestDottedKeyOf(dottedKey: string, typename: Option<string>) returns (ok: bool)
      requires Valid()
      modifies this
      ensures Valid() && (ok <==> (Named(typename) ==> typename.value in HASH_TYPES))
      ensures entries == if ok then IngestDottedKey(old(entries), murmur32, dottedKey, typename) else old(entries)
    {
      hide IngestSegment, Sound, HASH_TYPES, Split;
      if Named(typename) {
        if typename.value !in HASH_TYPES {
          return false;
        }
        var h := GetOrCreateEntry(None, Some(dottedKey));
        AddTypeTo(h.value, typename);
      }
      if '.' !in dottedKey {
        return true;
      }
      var segments := Split(dottedKey);
      ghost var before := entries;
      for i := 0 to |segments|
        invariant Valid() && entries == IngestSegments(before, murmur32, segments, i, typename)
      {
        IngestSegmentOf(segments, i, typename);
      }
      return true;
    }

    /** Names an entry and files its dotted key; entries and links are only added to. */
    method NameEntry(h: nat, key: string, typename: Option<string>) returns (ok: bool)
      requires Valid() && h in entries
      modifies this
      ensures Valid() && old(entries).Keys <= entries.Keys
      ensures ok <==> murmur32(key) == h && (Named(typename) ==> typename.value in HASH_TYPES)
      ensures forall c, m :: Contains(entries, c, m) <==>
                Contains(old(entries), c, m) || (ok && KeyAdds(murmur32, Some(key), c, m))
      ensures ok ==> entries == IngestDottedKey(SetKey(old(entries), h, key), murmur32, key, typename)
      ensures ok ==> entries[h].key == Some(key)
      ensures forall g :: g in old(entries) && g != h ==> entries[g].key == old(entries)[g].key
    {
      hide Sound, IngestDottedKey, HASH_TYPES, Contains;
      ok := SetKeyOf(h, key);
      if ok {
        assert forall c, m :: Contains(entries, c, m) <==> Contains(old(entries), c, m) by {
          SetKeyKeeps(old(entries), murmur32, h, key);
        }
        IngestLinksPrefixes(entries, murmur32, key, typename);
        IngestFiles(entries, murmur32, key, typename);
        hide KeyFiles, TypesFrom;
        ok := IngestDottedKeyOf(key, typename);
      }
    }

    /** A row outside a struct, as every source has them. */
    method IngestRow(h: nat, key: Option<string>, typename: Option<string>) returns (ok: bool)
      requires Valid()
      modifies this
      ensures Valid() && old(entries).Keys <= entries.Keys && h in entries
      ensures ok <==> (key.Some? ==> murmur32(key.value) == h && (Named(typename) ==> typename.value in HASH_TYPES))
      ensures forall c, m :: Contains(entries, c, m) <==>
                Contains(old(entries), c, m) || (ok && KeyAdds(murmur32, key, c, m))
      ensures ok ==> RowFiles(entries, old(entries), murmur32, Filing(h, key, typename, true))
    {
      hide Sound, HASH_TYPES, Contains, Adds, Split, RowFiles, IngestDottedKey;
      if key.Some? {
        FilesKey(entries, murmur32, h, key.value, typename, true);
      } else {
        OpensEntry(entries, murmur32, h, typename, true);
      }
      GetOrCreateKeeps(entries, murmur32, h, None);
      var r := GetOrCreateEntry(Some(h), None);
      AddTypeKeeps(entries, murmur32, h, typename);
      AddTypeTo(h, typename);
      ok := true;
      if key.Some? {
        ok := NameEntry(h, key.value, typename);
      }
    }

    /** An indented row: the entry becomes a member of the open struct, of which there must be one. */
    method IngestMember(open: Option<nat>, h: nat, key: Option<string>) returns (ok: bool)
      requires Valid() && (open.Some? ==> open.value in entries)
      modifies this
      ensures Valid() && old(entries).Keys <= entries.Keys
      ensures ok <==> open.Some? && (key.Some? ==> murmur32(key.value) == h)
      ensures ok ==> forall c, m :: Contains(entries, c, m) <==>
                Contains(old(entries), c, m) || (c == open.value && m == h) || KeyAdds(murmur32, key, c, m)
      ensures ok ==> RowFiles(entries, old(entries), murmur32, Filing(h, key, Some("Struct"), false))
    {
      hide Sound, Contains, Link, HASH_TYPES, Adds, Split, RowFiles, IngestDottedKey;
      if key.Some? {
        FilesKey(entries, murmur32, h, key.value, Some("Struct"), false);
      } else {
        OpensEntry(entries, murmur32, h, Some("Struct"), false);
      }
      StructIsAType();
      GetOrCreateKeeps(entries, murmur32, h, None);
      var r := GetOrCreateEntry(Some(h), None);
      ok := true;
      if key.Some? {
        ok := NameEntry(h, key.value, Some("Struct"));
      }
      if ok {
        if open.None? {
          return false;
        }
        LinkKeeps(entries, murmur32, open.value, h);
        LinkAside(entries, old(entries), murmur32, Filing(h, key, Some("Struct"), false), open.value, h);
        LinkEntries(open.value, h);
      }
    }

    /** The first source, line by line; it stops at a line it cannot use, and otherwise adds the links of all lines. */
    method IngestMrCheeze(lines: seq<SourceLine>) returns (ok: bool)
      requires Valid()
      modifies this
      ensures Valid() && old(entries).Keys <= entries.Keys
      ensures ok <==> forall i :: 0 <= i < |lines| ==> LineOk(murmur32, lines, i)
      ensures ok ==> forall c, m :: Contains(entries, c, m) <==>
                Contains(old(entries), c, m) || LinesAdd(murmur32, lines, |lines|, c, m)
      ensures ok ==> Indexed(entries, old(entries), murmur32, Filings(lines), |lines|)
    {
      hide Sound, HASH_TYPES, Contains, KeyAdds, LinesAdd, Indexed, RowFiles;
      NoLines(murmur32, lines);
      NothingIndexed(entries, murmur32, Filings(lines));
      StructIsAType();
      var srctype: Option<string> := None;
      var structEntry: Option<nat> := None;
      for i := 0 to |lines|
        invariant Valid() && old(entries).Keys <= entries.Keys
        invariant structEntry.Some? ==> structEntry.value in entries
        invariant srctype == TypeBefore(lines, i) && structEntry == OpenBefore(lines, i)
        invariant srctype.Some? ==> srctype.value in HASH_TYPES
        invariant forall j :: 0 <= j < i ==> LineOk(murmur32, lines, j)
        invariant forall c, m :: Contains(entries, c, m) <==>
                    Contains(old(entries), c, m) || LinesAdd(murmur32, lines, i, c, m)
        invariant Indexed(entries, old(entries), murmur32, Filings(lines), i)
      {
        OneMoreLine(murmur32, lines, i);
        ghost var now := entries;
        match lines[i] {
          case TypeLine(name) =>
            if name !in HASH_TYPES {
              assert !LineOk(murmur32, lines, i);
              return false;
            }
            srctype := Some(name);
          case Row(h, key) =>
            if srctype == Some("Struct") {
              structEntry := Some(h);
            }
            ok := IngestRow(h, key, srctype);
            if !ok {
              assert !LineOk(murmur32, lines, i);
              return;
            }
          case Indented(h, key) =>
            if srctype != Some("Struct") {
              assert !LineOk(murmur32, lines, i);
              return false;
            }
            ok := IngestMember(structEntry, h, key);
            if !ok {
              assert !LineOk(murmur32, lines, i);
              return;
            }
        }
        OneMoreRow(entries, now, old(entries), murmur32, Filings(lines), i);
      }
      return true;
    }

    /** The second source: a known key has to match its hash before the row is used. */
    method IngestMcSpazzy(rows: seq<TypedRow>) returns (ok: bool)
      requires Valid()
      modifies this
      ensures Valid() && old(entries).Keys <= entries.Keys
      ensures ok <==> forall i :: 0 <= i < |rows| ==>
                RowOk(murmur32, rows[i])
      ensures ok ==> forall c, m :: Contains(entries, c, m) <==>
                Contains(old(entries), c, m) || exists i :: 0 <= i < |rows| && KeyAdds(murmur32, rows[i].key, c, m)
      ensures ok ==> Indexed(entries, old(entries), murmur32, RowFilings(rows), |rows|)
    {
      hide Sound, HASH_TYPES, Contains, KeyAdds, Indexed, RowFiles;
      NothingIndexed(entries, murmur32, RowFilings(rows));
      for i := 0 to |rows|
        invariant Valid() && old(entries).Keys <= entries.Keys
        invariant forall j :: 0 <= j < i ==>
                    RowOk(murmur32, rows[j])
        invariant forall c, m :: Contains(entries, c, m) <==>
                    Contains(old(entries), c, m) || exists j :: 0 <= j < i && KeyAdds(murmur32, rows[j].key, c, m)
        invariant Indexed(entries, old(entries), murmur32, RowFilings(rows), i)
      {
        ghost var now := entries;
        var row := rows[i];
        if row.key.Some? && murmur32(row.key.value) != row.hash {
          return false;
        }
        ok := IngestRow(row.hash, row.key, Some(row.typename));
        if !ok {
          return;
        }
        OneMoreRow(entries, now, old(entries), murmur32, RowFilings(rows), i);
      }
      return true;
    }

    /** The third source: a row's type has to be a known one. */
    method IngestMarc(rows: seq<TypedRow>) returns (ok: bool)
      requires Valid()
      modifies this
      ensures Valid() && old(entries).Keys <= entries.Keys
      ensures ok <==> forall i :: 0 <= i < |rows| ==>
                rows[i].typename in HASH_TYPES && (rows[i].key.Some? ==> murmur32(rows[i].key.value) == rows[i].hash)
      ensures ok ==> forall c, m :: Contains(entries, c, m) <==>
                Contains(old(entries), c, m) || exists i :: 0 <= i < |rows| && KeyAdds(murmur32, rows[i].key, c, m)
      ensures ok ==> Indexed(entries, old(entries), murmur32, RowFilings(rows), |rows|)
    {
      hide Sound, HASH_TYPES, Contains, KeyAdds, Indexed, RowFiles;
      NothingIndexed(entries, murmur32, RowFilings(rows));
      for i := 0 to |rows|
        invariant Valid() && old(entries).Keys <= entries.Keys
        invariant forall j :: 0 <= j < i ==>
                    && rows[j].typename in HASH_TYPES
                    && (rows[j].key.Some? ==> murmur32(rows[j].key.value) == rows[j].hash)
        invariant forall c, m :: Contains(entries, c, m) <==>
                    Contains(old(entries), c, m) || exists j :: 0 <= j < i && KeyAdds(murmur32, rows[j].key, c, m)
        invariant Indexed(entries, old(entries), murmur32, RowFilings(rows), i)
      {
        ghost var now := entries;
        var row := rows[i];
        if row.typename !in HASH_TYPES {
          return false;
        }
        ok := IngestRow(row.hash, row.key, Some(row.typename));
        if !ok {
          return;
        }
        OneMoreRow(entries, now, old(entries), murmur32, RowFilings(rows), i);
      }
      return true;
    }

    /** The name of a hash. Looking up a hash without an entry would make one. */
    method MapHashToKeyOrHex(h: nat) returns (name: string)
      requires Valid()
      modifies this
      ensures Valid() && entries == GetOrCreate(old(entries), h, None) && name == NameOf(entries, h)
    {
      var r := GetOrCreateEntry(Some(h), None);
      if entries[h].key.Some? && entries[h].key.value != "" {
        return entries[h].key.value;
      }
      return Hex(h);
    }

    method MapNames(hs: set<nat>) returns (names: seq<string>)
      requires Valid() && hs <= entries.Keys
      modifies this
      ensures Valid() && entries == old(entries)
      ensures AreNames(names, entries, hs)
    {
      hide Sound, NameOf, Lists, NamesInOrder;
      NoneNamed(entries);
      names := [];
      var rest := hs;
      ghost var order: seq<nat> := [];
      ghost var done: set<nat> := {};
      NoneListed();
      while rest != {}
        invariant Valid() && entries == old(entries)
        invariant rest <= hs && done == hs - rest && Lists(order, done) && NamesInOrder(names, entries, order)
        decreases |rest|
      {
        var h :| h in rest;
        var name := MapHashToKeyOrHex(h);
        OneMoreListed(order, done, h);
        NamedNext(names, entries, order, h);
        names, order, done := names + [name], order + [h], done + {h};
        rest := rest - {h};
      }
      assert done == hs;
      assert Lists(order, hs) && NamesInOrder(names, entries, order);
    }

    method WriteEntry(h: nat) returns (record: Record)
      requires Valid() && h in entries
      modifies this
      ensures Valid() && entries == old(entries) && Describes(record, entries, h)
    {
      hide Sound, AreNames;
      AllResolve(entries, murmur32, h);
      var members := MapNames(entries[h].members);
      var owners := MapNames(entries[h].owners);
      record := Record(entries[h].key, entries[h].types, members, owners);
    }

    /** Writes every entry out. The lookups never make an entry, so the dictionary does not change under the loop. */
    method OutputJsData() returns (out: map<nat, Record>)
      requires Valid()
      modifies this
      ensures Valid() && entries == old(entries) && out.Keys == entries.Keys
      ensures forall h :: h in entries ==> Describes(out[h], entries, h)
    {
      hide Sound, Describes;
      out := map[];
      var rest := entries.Keys;
      while rest != {}
        invariant Valid() && entries == old(entries)
        invariant rest <= entries.Keys && out.Keys == entries.Keys - rest
        invariant forall h :: h in out ==> Describes(out[h], entries, h)
        decreases |rest|
      {
        var h :| h in rest;
        var record := WriteEntry(h);
        out := out[h := record];
        rest := rest - {h};
      }
    }
  }

  lemma NoneNamed(ix: Index)
    ensures NamesInOrder([], ix, [])
  {
  }

  lemma NamedNext(names: seq<string>, ix: Index, order: seq<nat>, h: nat)
    requires NamesInOrder(names, ix, order) && h in ix
    ensures NamesInOrder(names + [NameOf(ix, h)], ix, order + [h])
  {
  }

  lemma NoneListed()
    ensures Lists([], {})
  {
  }

  lemma OneMoreListed(order: seq<nat>, hs: set<nat>, h: nat)
    requires Lists(order, hs) && h !in hs
    ensures Lists(order + [h], hs + {h})
  {
    var more := order + [h];
    forall i, j | 0 <= i < j < |more| ensures more[i] != more[j] {
      if j == |order| { assert order[i] in order; }
    }
  }

  lemma StructIsAType()
    ensures Named(Some("Struct")) && "Struct" in HASH_TYPES
  {
  }

  lemma AllResolve(ix: Index, hash: Hash, h: nat)
    requires Sound(ix, hash) && h in ix
    ensures ix[h].members + ix[h].owners <= ix.Keys
  {
    forall other | other in ix[h].members + ix[h].owners ensures other in ix {
      ReferencesResolve(ix, hash, h, other);
    }
  }
}
