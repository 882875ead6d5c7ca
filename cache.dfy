/** The mnemonic table: the short keys the pages show next to tags, projects and custom
    queries, one map per kind. A value may be used by at most one entry across all maps; the
    file-backed cache checks this before every insert and writes the whole table out after every
    change. */
module Cache {
  import opened Wrappers

  datatype MnemonicsType = Project | Tag | CustomQuery

  /** `MnemonicsTable`: the owned maps, one per kind (name to mnemonic). */
  datatype Table = Table(tags: map<string, string>, projects: map<string, string>,
                         customs: map<string, string>)

  const EMPTY: Table := Table(map[], map[], map[])

  /** `MnemonicsTable::get`: the map of one kind. */
  function MapOf(t: Table, kind: MnemonicsType): map<string, string> {
    match kind
    case Project => t.projects
    case Tag => t.tags
    case CustomQuery => t.customs
  }

  function WithMap(t: Table, kind: MnemonicsType, m: map<string, string>): (r: Table)
    ensures MapOf(r, kind) == m
    ensures forall other :: other != kind ==> MapOf(r, other) == MapOf(t, other)
  {
    match kind
    case Project => t.(projects := m)
    case Tag => t.(tags := m)
    case CustomQuery => t.(customs := m)
  }

  /** `MnemonicsTable::insert`: the entry set (or replaced) in the map of its kind only. */
  function TableInsert(t: Table, kind: MnemonicsType, key: string, value: string): (r: Table)
    ensures MapOf(r, kind) == MapOf(t, kind)[key := value]
    ensures forall other :: other != kind ==> MapOf(r, other) == MapOf(t, other)
  {
    WithMap(t, kind, MapOf(t, kind)[key := value])
  }

  /** `MnemonicsTable::remove`: the entry dropped from the map of its kind only. */
  function TableRemove(t: Table, kind: MnemonicsType, key: string): (r: Table)
    ensures MapOf(r, kind) == MapOf(t, kind) - {key}
    ensures forall other :: other != kind ==> MapOf(r, other) == MapOf(t, other)
  {
    WithMap(t, kind, MapOf(t, kind) - {key})
  }

  /** Whether some entry of any kind has the mnemonic `value`. */
  predicate Used(t: Table, value: string) {
    (exists k :: k in t.projects && t.projects[k] == value) ||
    (exists k :: k in t.tags && t.tags[k] == value) ||
    (exists k :: k in t.customs && t.customs[k] == value)
  }

  lemma UsedAt(t: Table, value: string)
    ensures Used(t, value) <==> exists kind, k :: k in MapOf(t, kind) && MapOf(t, kind)[k] == value
  {
    if Used(t, value) {
      if k :| k in t.projects && t.projects[k] == value {
        assert k in MapOf(t, Project);
      } else if k :| k in t.tags && t.tags[k] == value {
        assert k in MapOf(t, Tag);
      } else {
        var k :| k in t.customs && t.customs[k] == value;
        assert k in MapOf(t, CustomQuery);
      }
    }
  }

  /** No mnemonic is used by two entries, within one kind or across kinds. */
  predicate Unique(t: Table) {
    forall k1, k2, a, b :: a in MapOf(t, k1) && b in MapOf(t, k2) && MapOf(t, k1)[a] == MapOf(t, k2)[b] ==>
      k1 == k2 && a == b
  }

  /** An insert of an unused mnemonic keeps the mnemonics unique. */
  lemma InsertKeepsUnique(t: Table, kind: MnemonicsType, key: string, value: string)
    requires Unique(t) && !Used(t, value)
    ensures Unique(TableInsert(t, kind, key, value))
  {
    var r := TableInsert(t, kind, key, value);
    forall k1, k2, a, b | a in MapOf(r, k1) && b in MapOf(r, k2) && MapOf(r, k1)[a] == MapOf(r, k2)[b]
      ensures k1 == k2 && a == b
    {
      if !(k1 == kind && a == key) && !(k2 == kind && b == key) {
        assert a in MapOf(t, k1) && MapOf(r, k1)[a] == MapOf(t, k1)[a];
        assert b in MapOf(t, k2) && MapOf(r, k2)[b] == MapOf(t, k2)[b];
      }
    }
  }

  /** A removal keeps the mnemonics unique. */
  lemma RemoveKeepsUnique(t: Table, kind: MnemonicsType, key: string)
    requires Unique(t)
    ensures Unique(TableRemove(t, kind, key))
  {
    var r := TableRemove(t, kind, key);
    forall k1, k2, a, b | a in MapOf(r, k1) && b in MapOf(r, k2) && MapOf(r, k1)[a] == MapOf(r, k2)[b]
      ensures k1 == k2 && a == b
    {
      assert a in MapOf(t, k1) && MapOf(r, k1)[a] == MapOf(t, k1)[a];
      assert b in MapOf(t, k2) && MapOf(r, k2)[b] == MapOf(t, k2)[b];
    }
  }

  /** After an insert the entry reads back, and every other entry reads as before. */
  lemma InsertThenGet(t: Table, kind: MnemonicsType, key: string, value: string, other: MnemonicsType, k: string)
    ensures var r := TableInsert(t, kind, key, value);
      key in MapOf(r, kind) && MapOf(r, kind)[key] == value &&
      ((other, k) != (kind, key) ==> (k in MapOf(r, other) <==> k in MapOf(t, other)) &&
                                     (k in MapOf(t, other) ==> MapOf(r, other)[k] == MapOf(t, other)[k]))
  {
  }

  /** After a removal the entry is gone, and every other entry reads as before. */
  lemma RemoveThenGet(t: Table, kind: MnemonicsType, key: string, other: MnemonicsType, k: string)
    ensures var r := TableRemove(t, kind, key);
      key !in MapOf(r, kind) &&
      ((other, k) != (kind, key) ==> (k in MapOf(r, other) <==> k in MapOf(t, other)) &&
                                     (k in MapOf(t, other) ==> MapOf(r, other)[k] == MapOf(t, other)[k]))
  {
  }

  const DUPLICATE: string := "Duplicate key generated!"

  /** `FileMnemonicsCache`: the table, and the file it is saved to. `writable` says whether the
      file can be created; `file` is the table as last written. */
  class FileCache {
    var table: Table
    var file: Option<Table>
    const writable: bool

    /** `FileMnemonicsCache::new`: an empty table; the file is not touched. */
    constructor (file: Option<Table>, writable: bool)
      ensures table == EMPTY && this.file == file && this.writable == writable
    {
      table := EMPTY;
      this.file := file;
      this.writable := writable;
    }

    /** `save`: the whole table written out, or an error when the file cannot be created. */
    method Save() returns (r: Result<(), string>)
      modifies this`file
      ensures writable ==> r.Ok? && file == Some(table)
      ensures !writable ==> r.Err? && file == old(file)
    {
      if !writable {
        return Err("cannot create the cache file");
      }
      file := Some(table);
      r := Ok(());
    }

    /** `get`: the mnemonic of a name of one kind. */
    method Get(kind: MnemonicsType, key: string) returns (r: Option<string>)
      ensures r.Some? <==> key in MapOf(table, kind)
      ensures r.Some? ==> r.value == MapOf(table, kind)[key]
    {
      var m := MapOf(table, kind);
      if key in m {
        r := Some(m[key]);
      } else {
        r := None;
      }
    }

    /** `insert`: refused, with nothing changed, when the mnemonic is already used by any entry;
        otherwise the entry is set and the table saved. A failed save is reported, but the entry
        stays set in memory. */
    method Insert(kind: MnemonicsType, key: string, value: string) returns (r: Result<(), string>)
      modifies this`table, this`file
      ensures Used(old(table), value) ==> r == Err(DUPLICATE) && table == old(table) && file == old(file)
      ensures !Used(old(table), value) ==>
        table == TableInsert(old(table), kind, key, value) &&
        (r.Ok? <==> writable) && file == (if writable then Some(table) else old(file))
      ensures Unique(old(table)) ==> Unique(table)
    {
      if exists k :: k in table.projects && table.projects[k] == value {
        return Err(DUPLICATE);
      }
      if exists k :: k in table.tags && table.tags[k] == value {
        return Err(DUPLICATE);
      }
      if exists k :: k in table.customs && table.customs[k] == value {
        return Err(DUPLICATE);
      }
      UsedAt(table, value);
      if Unique(table) {
        InsertKeepsUnique(table, kind, key, value);
      }
      table := TableInsert(table, kind, key, value);
      r := Save();
    }

    /** `remove`: the entry dropped and the table saved. */
    method Remove(kind: MnemonicsType, key: string) returns (r: Result<(), string>)
      modifies this`table, this`file
      ensures table == TableRemove(old(table), kind, key)
      ensures (r.Ok? <==> writable) && file == (if writable then Some(table) else old(file))
      ensures Unique(old(table)) ==> Unique(table)
    {
      if Unique(table) {
        RemoveKeepsUnique(table, kind, key);
      }
      table := TableRemove(table, kind, key);
      r := Save();
    }
  }

  /** The documented session: a tag mnemonic is set and read back; the same mnemonic is refused
      for a project until the tag's entry is removed; then the project may have it and the tag
      may not. */
  method CacheSession() returns (ok: seq<bool>, personal: Option<string>)
    ensures ok == [true, false, true, true, false] && personal == Some("xz")
  {
    var c := new FileCache(None, true);
    var r1 := c.Insert(Tag, "personal", "xz");
    personal := c.Get(Tag, "personal");
    assert Used(c.table, "xz") by { assert "personal" in MapOf(c.table, Tag); }
    var r2 := c.Insert(Project, "taskwarrior", "xz");
    var r3 := c.Remove(Tag, "personal");
    var r4 := c.Insert(Project, "taskwarrior", "xz");
    assert Used(c.table, "xz") by { assert "taskwarrior" in MapOf(c.table, Project); }
    var r5 := c.Insert(Tag, "personal", "xz");
    ok := [r1.Ok?, r2.Ok?, r3.Ok?, r4.Ok?, r5.Ok?];
  }
}
