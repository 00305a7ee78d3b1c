/** What is stored in a CDB database and what a query handle finds in it, while it learns whether keys were
    stored with a null byte behind them. */
module CdbQuery {
  import opened ByteStrings

  const NUL: Bytes := "\0"

  datatype Record = Record(key: Bytes, val: Bytes)

  /** No record before the `i`-th has this key. */
  predicate NotBefore(db: seq<Record>, key: Bytes, i: nat) {
    i <= |db| && forall j | 0 <= j < i :: db[j].key != key
  }

  /** `cdb_find`: the first record with this key. */
  function FindFirst(db: seq<Record>, key: Bytes): (r: Option<Bytes>)
    ensures r.Some? <==> exists i :: 0 <= i < |db| && db[i].key == key
    ensures r.Some? ==> exists i :: 0 <= i < |db| && db[i] == Record(key, r.value) && NotBefore(db, key, i)
  {
    if db == [] then None
    else if db[0].key == key then Some(db[0].val)
    else
      var r := FindFirst(db[1..], key);
      assert forall i | 0 <= i < |db[1..]| :: db[1..][i] == db[i + 1];
      assert forall i | 0 <= i < |db[1..]| && NotBefore(db[1..], key, i) :: NotBefore(db, key, i + 1) by {
        assert db == [db[0]] + db[1..];
      }
      r
  }

  datatype Mode = Add | Replace | Insert

  function Without(db: seq<Record>, key: Bytes): seq<Record> {
    if db == [] then [] else (if db[0].key == key then [] else [db[0]]) + Without(db[1..], key)
  }

  /** `cdb_make_put`: the new records, and whether the key was there before, where that is looked for. */
  function Put(db: seq<Record>, key: Bytes, val: Bytes, mode: Mode): (seq<Record>, bool) {
    var there := FindFirst(db, key).Some?;
    match mode
    case Add => (db + [Record(key, val)], false)
    case Replace => (Without(db, key) + [Record(key, val)], there)
    case Insert => if there then (db, true) else (db + [Record(key, val)], false)
  }

  datatype Flags = Flags(try0: bool, try1: bool, dupIgnore: bool, dupReplace: bool, dupWarn: bool, fold: bool)

  /** Undecided flags for creating mean no null byte; both mean one. */
  function CreateFlags(f: Flags): Flags {
    if !f.try0 && !f.try1 then f.(try0 := true) else if f.try0 && f.try1 then f.(try0 := false) else f
  }

  /** Undecided flags for querying mean to try both. */
  function QueryFlags(f: Flags): Flags {
    if !f.try0 && !f.try1 then f.(try0 := true, try1 := true) else f
  }

  function Lower(c: Byte): Byte {
    if 'A' <= c <= 'Z' then (c as int + 32) as char else c
  }

  function Folded(name: Bytes, fold: bool): (r: Bytes)
    ensures |r| == |name|
  {
    if fold then seq(|name|, i requires 0 <= i < |name| => Lower(name[i])) else name
  }

  function ModeOf(f: Flags): Mode {
    if f.dupIgnore then Add else if f.dupReplace then Replace else Insert
  }

  predicate Plain(name: Bytes) {
    '\0' !in name
  }

  datatype Entry = Entry(name: Bytes, val: Bytes)

  function KeyOf(f: Flags, name: Bytes): Bytes {
    Folded(name, f.fold) + if f.try1 then NUL else []
  }

  function ValueOf(f: Flags, val: Bytes): Bytes {
    val + if f.try1 then NUL else []
  }

  datatype Outcome = Stored | Warned | Fatal

  /** A database being written. */
  class Maker {
    const flags: Flags
    var db: seq<Record>

    constructor (f: Flags)
      ensures flags == CreateFlags(f) && db == []
    {
      flags := if !f.try0 && !f.try1 then f.(try0 := true) else if f.try1 && f.try0 then f.(try0 := false) else f;
      db := [];
    }

    /** `dict_cdbm_update` */
    method Update(name: Bytes, val: Bytes) returns (outcome: Outcome)
      modifies this`db
      ensures db == Put(old(db), KeyOf(flags, name), ValueOf(flags, val), ModeOf(flags)).0
      ensures var twice := Put(old(db), KeyOf(flags, name), ValueOf(flags, val), ModeOf(flags)).1;
              outcome ==
                if !twice || flags.dupIgnore || flags.dupReplace then Stored
                else if flags.dupWarn then Warned
                else Fatal
    {
      var key, data := name, val;
      if flags.fold {
        key := Folded(key, true);
      }
      if flags.try1 {
        key, data := key + NUL, data + NUL;
      }
      assert key == KeyOf(flags, name) && data == ValueOf(flags, val);
      var mode := if flags.dupIgnore then Add else if flags.dupReplace then Replace else Insert;
      var put := Put(db, key, data, mode);
      db := put.0;
      if put.1 {
        if flags.dupIgnore || flags.dupReplace {
          return Stored;
        } else if flags.dupWarn {
          return Warned;
        } else {
          return Fatal;
        }
      }
      return Stored;
    }
  }

  /** The records after a session of updates. */
  function Session(f: Flags, entries: seq<Entry>): seq<Record> {
    if entries == [] then []
    else
      var last := entries[|entries| - 1];
      Put(Session(f, entries[..|entries| - 1]), KeyOf(f, last.name), ValueOf(f, last.val), ModeOf(f)).0
  }

  lemma FindAppended(db: seq<Record>, r: Record, key: Bytes)
    ensures FindFirst(db + [r], key) ==
      if FindFirst(db, key).Some? then FindFirst(db, key) else if r.key == key then Some(r.val) else None
  {
    if db == [] {
      assert db + [r] == [r];
      assert [r][1..] == [];
    } else {
      assert (db + [r])[1..] == db[1..] + [r];
      FindAppended(db[1..], r, key);
    }
  }

  lemma FindWithout(db: seq<Record>, gone: Bytes, key: Bytes)
    ensures FindFirst(Without(db, gone), key) == if key == gone then None else FindFirst(db, key)
  {
    if db != [] {
      FindWithout(db[1..], gone, key);
      var rest := Without(db[1..], gone);
      if db[0].key == gone {
        assert [] + rest == rest;
      } else {
        assert ([db[0]] + rest)[1..] == rest;
      }
    }
  }

  /** What one put does to what is found under any key. */
  lemma FindAfterPut(db: seq<Record>, key: Bytes, val: Bytes, mode: Mode, k: Bytes)
    ensures FindFirst(Put(db, key, val, mode).0, k) ==
      if k != key then FindFirst(db, k)
      else if mode == Replace || FindFirst(db, key) == None then Some(val)
      else FindFirst(db, key)
  {
    FindAppended(db, Record(key, val), k);
    FindAppended(Without(db, key), Record(key, val), k);
    FindWithout(db, key, k);
  }

  /** The capital and the small form of one ASCII letter. */
  predicate TwoCases(x: Byte, y: Byte) {
    || ('a' <= x <= 'z' && y as int == x as int - 32)
    || ('A' <= x <= 'Z' && y as int == x as int + 32)
  }

  /** Two names are the same if they are equal, or, with folding, if they are so up to the case of letters. */
  predicate Same(f: Flags, a: Bytes, b: Bytes) {
    a == b || (f.fold && |a| == |b| && forall k | 0 <= k < |a| :: a[k] == b[k] || TwoCases(a[k], b[k]))
  }

  /** Entry `i` is the one that counts for a name: the last with that name if duplicates are to replace, and are
      not to be ignored, and the first otherwise. */
  predicate Counts(f: Flags, entries: seq<Entry>, name: Bytes, i: nat) {
    && i < |entries| && Same(f, entries[i].name, name)
    && (f.dupReplace && !f.dupIgnore ==> forall j | i < j < |entries| :: !Same(f, entries[j].name, name))
    && (!f.dupReplace || f.dupIgnore ==> forall j | 0 <= j < i :: !Same(f, entries[j].name, name))
  }

  /** What is found for an entry: its bytes, with a null byte behind them if the flags ask for it. */
  predicate Bears(f: Flags, entry: Entry, found: Bytes) {
    found == entry.val + if f.try1 then NUL else []
  }

  lemma FoldedSame(f: Flags, a: Bytes, b: Bytes)
    ensures Folded(a, f.fold) == Folded(b, f.fold) <==> Same(f, a, b)
  {
    if f.fold {
      assert forall x: Byte, y: Byte :: Lower(x) == Lower(y) <==> x == y || TwoCases(x, y);
      if Folded(a, true) == Folded(b, true) {
        forall k | 0 <= k < |a| ensures a[k] == b[k] || TwoCases(a[k], b[k]) {
          assert Folded(a, true)[k] == Folded(b, true)[k];
        }
      }
    }
  }

  lemma SameKey(f: Flags, a: Bytes, b: Bytes)
    ensures KeyOf(f, a) == KeyOf(f, b) <==> Same(f, a, b)
  {
    hide Same;
    FoldedSame(f, a, b);
    assert KeyOf(f, a)[..|a|] == Folded(a, f.fold) && KeyOf(f, b)[..|b|] == Folded(b, f.fold);
  }

  lemma CountsKept(f: Flags, entries: seq<Entry>, last: Entry, name: Bytes, i: nat)
    requires Counts(f, entries, name, i) && (!f.dupReplace || f.dupIgnore || !Same(f, last.name, name))
    ensures Counts(f, entries + [last], name, i)
  {
    hide Same;
  }

  lemma CountsLast(f: Flags, entries: seq<Entry>, last: Entry, name: Bytes)
    requires Same(f, last.name, name)
    requires (f.dupReplace && !f.dupIgnore) || forall i | 0 <= i < |entries| :: !Same(f, entries[i].name, name)
    ensures Counts(f, entries + [last], name, |entries|)
  {
    hide Same;
  }

  /** Each name yields the bytes stored for it, and a name that was never stored yields nothing. */
  lemma {:induction false} StoredIsFound(f: Flags, entries: seq<Entry>, name: Bytes)
    ensures match FindFirst(Session(f, entries), KeyOf(f, name))
            case None => forall i | 0 <= i < |entries| :: !Same(f, entries[i].name, name)
            case Some(v) => exists i: nat :: Counts(f, entries, name, i) && Bears(f, entries[i], v)
    decreases |entries|
  {
    hide FindFirst, Put, KeyOf, Same;
    assert ModeOf(f) == Replace <==> f.dupReplace && !f.dupIgnore;
    if entries == [] {
      NothingStored(KeyOf(f, name));
    } else {
      var n := |entries| - 1;
      var front, last := entries[..n], entries[n];
      assert entries == front + [last];
      StoredIsFound(f, front, name);
      SameKey(f, last.name, name);
      FindAfterPut(Session(f, front), KeyOf(f, last.name), ValueOf(f, last.val), ModeOf(f), KeyOf(f, name));
      var was := FindFirst(Session(f, front), KeyOf(f, name));
      if was.Some? {
        var i: nat :| Counts(f, front, name, i) && Bears(f, front[i], was.value);
        if !f.dupReplace || f.dupIgnore || !Same(f, last.name, name) {
          CountsKept(f, front, last, name, i);
        }
      }
      if Same(f, last.name, name) && (ModeOf(f) == Replace || was == None) {
        CountsLast(f, front, last, name);
      }
    }
  }

  lemma NothingStored(key: Bytes)
    ensures FindFirst([], key) == None
  {
  }

  /** Every key of a database written in one session has the null byte, or none has. */
  predicate OneForm(db: seq<Record>, withNull: bool) {
    forall i | 0 <= i < |db| :: ('\0' in db[i].key <==> withNull)
  }

  lemma FoldedPlain(name: Bytes, fold: bool)
    requires Plain(name)
    ensures Plain(Folded(name, fold))
  {
    forall i | 0 <= i < |name| ensures Folded(name, fold)[i] != '\0' {
      assert name[i] in name;
    }
  }

  lemma WithoutKeepsForm(db: seq<Record>, key: Bytes, withNull: bool)
    requires OneForm(db, withNull)
    ensures OneForm(Without(db, key), withNull)
  {
    if db != [] {
      assert forall i | 0 <= i < |db[1..]| :: db[1..][i] == db[i + 1];
      WithoutKeepsForm(db[1..], key, withNull);
    }
  }

  lemma {:induction false} SessionForm(f: Flags, entries: seq<Entry>)
    requires forall e | e in entries :: Plain(e.name)
    ensures OneForm(Session(f, entries), f.try1)
    decreases |entries|
  {
    if entries != [] {
      var front, last := entries[..|entries| - 1], entries[|entries| - 1];
      SessionForm(f, front);
      assert last in entries;
      FoldedPlain(last.name, f.fold);
      WithoutKeepsForm(Session(f, front), KeyOf(f, last.name), f.try1);
      KeyForm(f, last.name);
    }
  }

  lemma KeyForm(f: Flags, name: Bytes)
    requires Plain(name)
    ensures '\0' in KeyOf(f, name) <==> f.try1
  {
    FoldedPlain(name, f.fold);
    if f.try1 {
      assert KeyOf(f, name)[|name|] == '\0';
    }
  }

  /** A lookup that always tries both forms of the key. */
  function TryBoth(db: seq<Record>, name: Bytes): Option<Bytes> {
    if FindFirst(db, name + NUL).Some? then FindFirst(db, name + NUL) else FindFirst(db, name)
  }

  /** A database opened for queries. */
  class QueryHandle {
    const db: seq<Record>
    const fold: bool
    var try0: bool
    var try1: bool

    /** The form of the keys is still among those tried. */
    ghost predicate Fits(withNull: bool)
      reads this
    {
      OneForm(db, withNull) && (if withNull then try1 else try0)
    }

    constructor (db: seq<Record>, f: Flags)
      ensures this.db == db && fold == f.fold && try0 == QueryFlags(f).try0 && try1 == QueryFlags(f).try1
    {
      this.db, fold := db, f.fold;
      try0, try1 := f.try0, f.try1;
      if !f.try0 && !f.try1 {
        try0, try1 := true, true;
      }
    }

    /** `dict_cdbq_lookup`: the flags that a hit rules out are dropped, and the answers stay what trying both
        forms would give. */
    method Lookup(name: Bytes, ghost withNull: bool) returns (value: Option<Bytes>)
      requires Fits(withNull) && Plain(name)
      modifies this`try0, this`try1
      ensures Fits(withNull) && (try0 ==> old(try0)) && (try1 ==> old(try1))
      ensures value == TryBoth(db, Folded(name, fold))
      ensures value.Some? ==> (withNull ==> !try0) && (!withNull ==> !try1)
    {
      hide FindFirst, Folded;
      var key := name;
      if fold {
        key := Folded(name, true);
      }
      assert key == Folded(name, fold) by { Unfolded(name); }
      FormsApart(db, withNull, name, fold);
      value := None;
      if try1 {
        value := FindFirst(db, key + NUL);
        if value.Some? {
          try0 := false;
        }
      }
      if value == None && try0 {
        value := FindFirst(db, key);
        if value.Some? {
          try1 := false;
        }
      }
    }

    /** Any run of lookups, each starting from what the ones before have learned. */
    method LookupAll(names: seq<Bytes>, ghost withNull: bool) returns (values: seq<Option<Bytes>>)
      requires Fits(withNull) && forall n | n in names :: Plain(n)
      modifies this`try0, this`try1
      ensures Fits(withNull) && |values| == |names|
      ensures forall i | 0 <= i < |names| :: values[i] == TryBoth(db, Folded(names[i], fold))
    {
      values := [];
      while |values| < |names|
        invariant |values| <= |names| && Fits(withNull)
        invariant forall i | 0 <= i < |values| :: values[i] == TryBoth(db, Folded(names[i], fold))
      {
        var value := Lookup(names[|values|], withNull);
        values := values + [value];
      }
    }
  }

  lemma Unfolded(name: Bytes)
    ensures Folded(name, false) == name
  {
  }

  /** In a database of one form, only that form of a name can be found. */
  lemma FormsApart(db: seq<Record>, withNull: bool, name: Bytes, fold: bool)
    requires OneForm(db, withNull) && Plain(name)
    ensures withNull ==> FindFirst(db, Folded(name, fold)) == None
    ensures !withNull ==> FindFirst(db, Folded(name, fold) + NUL) == None
  {
    FoldedPlain(name, fold);
    assert (Folded(name, fold) + NUL)[|name|] == '\0';
  }

  /** A learning handle on a database of one session answers every name with what was stored for it, under
      the same folding of case; the session's own null byte is part of the value. */
  lemma QueryFindsStored(f: Flags, entries: seq<Entry>, name: Bytes)
    requires (forall e | e in entries :: Plain(e.name)) && Plain(name)
    ensures TryBoth(Session(f, entries), Folded(name, f.fold)) == FindFirst(Session(f, entries), KeyOf(f, name))
  {
    hide FindFirst, Folded;
    SessionForm(f, entries);
    FormsApart(Session(f, entries), f.try1, name, f.fold);
    assert Folded(name, f.fold) + [] == Folded(name, f.fold);
  }

  // ---- A session and queries on it

  /** Entry `k` repeats the name of an earlier one. */
  ghost predicate Repeats(f: Flags, entries: seq<Entry>, k: nat) {
    k < |entries| && exists j :: 0 <= j < k && Same(f, entries[j].name, entries[k].name)
  }

  /** Duplicates end the session: they are neither ignored, nor replaced, nor only warned of. */
  predicate DuplicatesFatal(f: Flags) {
    !f.dupIgnore && !f.dupReplace && !f.dupWarn
  }

  /** What a name is to be answered with: the bytes of the entry that counts for it, or nothing if there is
      no entry with that name. */
  ghost predicate Answers(f: Flags, entries: seq<Entry>, name: Bytes, answer: Option<Bytes>) {
    match answer
    case None => forall i | 0 <= i < |entries| :: !Same(f, entries[i].name, name)
    case Some(v) => exists i: nat :: Counts(f, entries, name, i) && Bears(f, entries[i], v)
  }

  /** A put finds its key there exactly when an earlier entry has the same name. */
  lemma ThereIffRepeated(f: Flags, entries: seq<Entry>, k: nat)
    requires k < |entries|
    ensures FindFirst(Session(f, entries[..k]), KeyOf(f, entries[k].name)).Some? <==> Repeats(f, entries, k)
  {
    hide FindFirst, Session, KeyOf, ValueOf, Same;
    var front := entries[..k];
    StoredIsFound(f, front, entries[k].name);
    assert forall i | 0 <= i < k :: front[i] == entries[i];
  }

  /** Storing all entries: it fails exactly where duplicates are fatal and an entry repeats a name. */
  method StoreAll(maker: Maker, entries: seq<Entry>) returns (ok: bool)
    requires maker.db == []
    modifies maker`db
    ensures ok == !(DuplicatesFatal(maker.flags) && exists k: nat :: Repeats(maker.flags, entries, k))
    ensures ok ==> maker.db == Session(maker.flags, entries)
  {
    hide FindFirst, KeyOf, ValueOf, Repeats;
    var k := 0;
    while k < |entries|
      invariant 0 <= k <= |entries| && maker.db == Session(maker.flags, entries[..k])
      invariant DuplicatesFatal(maker.flags) ==> forall j: nat | j < k :: !Repeats(maker.flags, entries, j)
    {
      assert entries[..k + 1][..k] == entries[..k];
      ThereIffRepeated(maker.flags, entries, k);
      var outcome := maker.Update(entries[k].name, entries[k].val);
      if outcome == Fatal {
        assert Repeats(maker.flags, entries, k);
        return false;
      }
      k := k + 1;
    }
    assert entries[..k] == entries;
    assert forall j: nat | Repeats(maker.flags, entries, j) :: j < |entries| by { RepeatsInside(maker.flags, entries); }
    return true;
  }

  lemma RepeatsInside(f: Flags, entries: seq<Entry>)
    ensures forall j: nat | Repeats(f, entries, j) :: j < |entries|
  {
  }

  /** A whole session and a run of queries on what it wrote: every name is answered with what was stored for
      it. There is nothing to query exactly where duplicates are fatal and some entry repeats a name. */
  method StoreAndQuery(f: Flags, entries: seq<Entry>, q: Flags, names: seq<Bytes>)
      returns (values: Option<seq<Option<Bytes>>>)
    requires (forall e | e in entries :: Plain(e.name)) && (forall n | n in names :: Plain(n))
    requires !q.try0 && !q.try1 && q.fold == f.fold
    ensures values == None <==> DuplicatesFatal(f) && exists k: nat :: Repeats(f, entries, k)
    ensures values.Some? ==>
      && |values.value| == |names|
      && forall i | 0 <= i < |names| :: Answers(f, entries, names[i], values.value[i])
  {
    hide FindFirst, KeyOf, ValueOf, Folded, Put, TryBoth, Repeats, Answers, Session;
    var maker := new Maker(f);
    EmptySession(maker.flags);
    SameRepeats(f, entries);
    var ok := StoreAll(maker, entries);
    if !ok {
      return None;
    }
    var handle := new QueryHandle(maker.db, q);
    SessionForm(maker.flags, entries);
    var found := handle.LookupAll(names, maker.flags.try1);
    forall i | 0 <= i < |names| ensures Answers(f, entries, names[i], found[i]) {
      assert names[i] in names;
      QueryFindsStored(maker.flags, entries, names[i]);
      FoundAnswers(maker.flags, entries, names[i]);
      AnswersOfFlags(f, entries, names[i], found[i]);
    }
    values := Some(found);
  }

  lemma EmptySession(f: Flags)
    ensures Session(f, []) == []
  {
  }

  lemma SameRepeats(f: Flags, entries: seq<Entry>)
    ensures forall k: nat :: Repeats(CreateFlags(f), entries, k) <==> Repeats(f, entries, k)
    ensures DuplicatesFatal(CreateFlags(f)) <==> DuplicatesFatal(f)
  {
    hide Folded;
  }

  lemma AnswersOfFlags(f: Flags, entries: seq<Entry>, name: Bytes, answer: Option<Bytes>)
    ensures Answers(CreateFlags(f), entries, name, answer) <==> Answers(f, entries, name, answer)
  {
    var g := CreateFlags(f);
    assert forall a, b :: Same(g, a, b) <==> Same(f, a, b);
    hide Same;
    assert forall i: nat :: Counts(g, entries, name, i) <==> Counts(f, entries, name, i);
  }

  lemma FoundAnswers(f: Flags, entries: seq<Entry>, name: Bytes)
    ensures Answers(f, entries, name, FindFirst(Session(f, entries), KeyOf(f, name)))
  {
    hide FindFirst, Session, KeyOf, ValueOf, Same, Counts;
    StoredIsFound(f, entries, name);
  }
}
