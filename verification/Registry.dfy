/** The registry of dictionaries: names with reference counts, where using an unknown name registers it. */
module Registry {
  import opened ByteStrings

  type Name = Bytes
  type DictId = nat

  /** `DICT_NODE` */
  datatype Node = Node(dict: DictId, refcount: nat)

  /** What happened, in order: explicit and implied registrations, unregistrations, calls of a dictionary's
      own operations through the table, and closings. */
  datatype Event =
    | Registered(name: Name, dict: DictId)
    | Implied(name: Name, dict: DictId)
    | Unregistered(name: Name, dict: DictId)
    | Used(name: Name, dict: DictId)
    | Closed(dict: DictId)

  /** `acl_msg_fatal` and `acl_msg_panic` end the program. */
  datatype Outcome = Done | Fatal | Panic

  predicate Registers(e: Event) {
    e.Registered? || e.Implied?
  }

  function Weight(e: Event, name: Name): int {
    if Registers(e) && e.name == name then 1 else if e.Unregistered? && e.name == name then -1 else 0
  }

  /** Registrations of a name, explicit and implied, less its unregistrations. */
  function Balance(trace: seq<Event>, name: Name): int {
    if trace == [] then 0 else Balance(trace[..|trace| - 1], name) + Weight(trace[|trace| - 1], name)
  }

  lemma BalanceAfter(trace: seq<Event>, e: Event)
    ensures forall name :: Balance(trace + [e], name) == Balance(trace, name) + Weight(e, name)
  {
    assert (trace + [e])[..|trace + [e]| - 1] == trace;
  }

  /** The dictionary last registered under a name. */
  function Holder(trace: seq<Event>, name: Name): DictId {
    if trace == [] then 0
    else
      var last := trace[|trace| - 1];
      if Registers(last) && last.name == name then last.dict else Holder(trace[..|trace| - 1], name)
  }

  lemma HolderAfter(trace: seq<Event>, e: Event)
    ensures forall name ::
      Holder(trace + [e], name) == if Registers(e) && e.name == name then e.dict else Holder(trace, name)
  {
    assert (trace + [e])[..|trace + [e]| - 1] == trace;
  }

  lemma {:induction false} HolderRegistered(trace: seq<Event>, name: Name) returns (i: nat)
    requires Balance(trace, name) > 0
    ensures i < |trace| && Registers(trace[i]) && trace[i].name == name && trace[i].dict == Holder(trace, name)
  {
    var n := |trace| - 1;
    if Registers(trace[n]) && trace[n].name == name {
      i := n;
    } else {
      i := HolderRegistered(trace[..n], name);
    }
  }

  function Closings(trace: seq<Event>, d: DictId): nat {
    if trace == [] then 0 else Closings(trace[..|trace| - 1], d) + if trace[|trace| - 1] == Closed(d) then 1 else 0
  }

  lemma ClosingsAfter(trace: seq<Event>, e: Event)
    ensures forall d :: Closings(trace + [e], d) == Closings(trace, d) + if e == Closed(d) then 1 else 0
  {
    assert (trace + [e])[..|trace + [e]| - 1] == trace;
  }

  lemma {:induction false} ClosedCounts(trace: seq<Event>, d: DictId)
    ensures Closings(trace, d) > 0 <==> Closed(d) in trace
  {
    if trace != [] {
      var n := |trace| - 1;
      ClosedCounts(trace[..n], d);
      assert trace == trace[..n] + [trace[n]];
    }
  }

  /** The table holds exactly the names with a positive balance, with the balance for a count, and with the
      dictionary that was last registered under the name. */
  ghost predicate Counted(table: map<Name, Node>, trace: seq<Event>) {
    forall name ::
      && Balance(trace, name) == (if name in table then table[name].refcount else 0)
      && (name in table ==> table[name].refcount > 0 && table[name].dict == Holder(trace, name))
  }

  /** The dictionaries that were ever mentioned were made before, and `tables` tells which of them are hash
      tables; all that were registered implicitly are. */
  ghost predicate Known(trace: seq<Event>, next: DictId, tables: set<DictId>) {
    && (forall i | 0 <= i < |trace| :: trace[i].dict < next && (trace[i].Implied? ==> trace[i].dict in tables))
    && forall d | d in tables :: d < next
  }

  // ---- One name for each dictionary

  /** No dictionary was registered under two names, and none again after it was closed. */
  ghost predicate Proper(trace: seq<Event>) {
    && (forall i, j | 0 <= i < j < |trace| && Registers(trace[i]) && Registers(trace[j])
      && trace[i].dict == trace[j].dict ::
          trace[i].name == trace[j].name)
    && (forall i, j | 0 <= i < j < |trace| && trace[i].Closed? && Registers(trace[j]) :: trace[i].dict != trace[j].dict)
  }

  /** A registration that does not give its dictionary a second name, nor registers a closed one. */
  ghost predicate Fits(trace: seq<Event>, name: Name, d: DictId) {
    && Closed(d) !in trace
    && forall i | 0 <= i < |trace| && Registers(trace[i]) && trace[i].dict == d :: trace[i].name == name
  }

  lemma ProperBefore(trace: seq<Event>, e: Event)
    requires Proper(trace + [e])
    ensures Proper(trace) && (Registers(e) ==> Fits(trace, e.name, e.dict))
  {
    var t := trace + [e];
    assert forall i | 0 <= i < |trace| :: t[i] == trace[i];
    assert t[|trace|] == e;
  }

  lemma ProperAfter(trace: seq<Event>, e: Event)
    requires Proper(trace) && (Registers(e) ==> Fits(trace, e.name, e.dict))
    ensures Proper(trace + [e])
  {
    var t := trace + [e];
    assert forall i | 0 <= i < |trace| :: t[i] == trace[i] && trace[i] in trace;
  }

  lemma NewFits(trace: seq<Event>, next: DictId, tables: set<DictId>, name: Name)
    requires Known(trace, next, tables)
    ensures Fits(trace, name, next)
  {
  }

  /** A dictionary that a name holds may be registered under that name again. */
  lemma HolderFits(table: map<Name, Node>, trace: seq<Event>, name: Name)
    requires Counted(table, trace) && ClosedOnce(table, trace) && Proper(trace) && name in table
    ensures Fits(trace, name, table[name].dict)
  {
    var d := table[name].dict;
    ClosedCounts(trace, d);
    var k := HolderRegistered(trace, name);
    assert trace[k].dict == d;
  }

  /** A dictionary is closed at most once, and a closed one is in the table no more. */
  ghost predicate ClosedOnce(table: map<Name, Node>, trace: seq<Event>) {
    && (forall d: DictId :: Closings(trace, d) <= 1)
    && (forall name | name in table :: Closings(trace, table[name].dict) == 0)
  }

  /** No dictionary is used once it is closed. */
  ghost predicate NeverUsedAfter(trace: seq<Event>) {
    forall i, j | 0 <= i < j < |trace| && trace[i].Closed? && trace[j].Used? :: trace[i].dict != trace[j].dict
  }

  /** What holds as long as every dictionary has one name. */
  ghost predicate ClosedWell(table: map<Name, Node>, trace: seq<Event>) {
    ClosedOnce(table, trace) && NeverUsedAfter(trace)
  }

  // ---- When a dictionary is closed

  /** An unregistration is followed at once by the closing of the dictionary exactly when it gets the name's
      balance to zero. */
  ghost predicate SettledAt(trace: seq<Event>, i: nat)
    requires i < |trace|
  {
    trace[i].Unregistered? ==>
      (Balance(trace[..i + 1], trace[i].name) == 0 <==> i + 1 < |trace| && trace[i + 1] == Closed(trace[i].dict))
  }

  /** A closing follows an unregistration of the same dictionary. */
  ghost predicate CausedAt(trace: seq<Event>, j: nat)
    requires j < |trace|
  {
    trace[j].Closed? ==> j > 0 && trace[j - 1].Unregistered? && trace[j - 1].dict == trace[j].dict
  }

  ghost predicate ClosedAtZero(trace: seq<Event>) {
    (forall i | 0 <= i < |trace| :: SettledAt(trace, i)) && (forall j | 0 <= j < |trace| :: CausedAt(trace, j))
  }

  /** The whole invariant: what is said of closings once and for all takes one name for each dictionary. */
  ghost predicate Sound(table: map<Name, Node>, trace: seq<Event>) {
    Counted(table, trace) && ClosedAtZero(trace) && (Proper(trace) ==> ClosedWell(table, trace))
  }

  lemma SettledMore(trace: seq<Event>, e: Event, i: nat)
    requires i < |trace| && SettledAt(trace, i) && CausedAt(trace, i)
    requires i + 1 == |trace| && trace[i].Unregistered? ==>
      (Balance(trace, trace[i].name) == 0 <==> e == Closed(trace[i].dict))
    ensures SettledAt(trace + [e], i) && CausedAt(trace + [e], i)
  {
    hide Balance;
    assert (trace + [e])[..i + 1] == trace[..i + 1];
    assert trace[..|trace|] == trace;
  }

  /** Between calls, an unregistration that got a balance to zero has been followed up by a closing. */
  ghost predicate Calm(trace: seq<Event>) {
    trace != [] && trace[|trace| - 1].Unregistered? ==> Balance(trace, trace[|trace| - 1].name) != 0
  }

  lemma LastIsCalm(trace: seq<Event>)
    requires ClosedAtZero(trace)
    ensures Calm(trace)
  {
    hide Balance;
    if trace != [] {
      assert trace[..|trace|] == trace;
      assert SettledAt(trace, |trace| - 1);
    }
  }

  lemma AtZeroMore(trace: seq<Event>, e: Event)
    requires ClosedAtZero(trace) && !e.Closed? && (e.Unregistered? ==> Balance(trace + [e], e.name) != 0)
    ensures ClosedAtZero(trace + [e])
  {
    hide Balance, SettledAt, CausedAt;
    var t := trace + [e];
    LastIsCalm(trace);
    forall i | 0 <= i < |t| ensures SettledAt(t, i) && CausedAt(t, i) {
      if i < |trace| {
        SettledMore(trace, e, i);
      } else {
        LastSettled(trace, e);
      }
    }
  }

  lemma LastSettled(trace: seq<Event>, e: Event)
    requires !e.Closed? && (e.Unregistered? ==> Balance(trace + [e], e.name) != 0)
    ensures SettledAt(trace + [e], |trace|) && CausedAt(trace + [e], |trace|)
  {
    hide Balance;
    assert (trace + [e])[..|trace| + 1] == trace + [e];
  }

  lemma AtZeroClosed(trace: seq<Event>, name: Name, d: DictId)
    requires ClosedAtZero(trace) && Balance(trace + [Unregistered(name, d)], name) == 0
    ensures ClosedAtZero(trace + [Unregistered(name, d)] + [Closed(d)])
  {
    hide Balance, SettledAt, CausedAt;
    var u := Unregistered(name, d);
    var t := trace + [u] + [Closed(d)];
    LastIsCalm(trace);
    forall i | 0 <= i < |t| ensures SettledAt(t, i) && CausedAt(t, i) {
      if i < |trace| {
        SettledMore(trace, u, i);
        SettledMore(trace + [u], Closed(d), i);
      } else {
        ClosingSettled(trace, name, d, i);
      }
    }
  }

  lemma ClosingSettled(trace: seq<Event>, name: Name, d: DictId, i: nat)
    requires Balance(trace + [Unregistered(name, d)], name) == 0 && |trace| <= i < |trace| + 2
    ensures var t := trace + [Unregistered(name, d)] + [Closed(d)]; SettledAt(t, i) && CausedAt(t, i)
  {
    hide Balance;
    var t := trace + [Unregistered(name, d)] + [Closed(d)];
    assert t[..|trace| + 1] == trace + [Unregistered(name, d)];
  }

  // ---- What each kind of call keeps

  function Added(table: map<Name, Node>, name: Name, d: DictId): map<Name, Node> {
    table[name := Node(d, 1 + if name in table then table[name].refcount else 0)]
  }

  lemma RegisteredSound(table: map<Name, Node>, trace: seq<Event>, name: Name, d: DictId, e: Event)
    requires Sound(table, trace) && (e == Registered(name, d) || e == Implied(name, d))
    requires name in table ==> table[name].dict == d
    ensures Sound(Added(table, name, d), trace + [e])
  {
    hide Balance, Closings, ClosedAtZero, Holder, Proper;
    BalanceAfter(trace, e);
    HolderAfter(trace, e);
    ClosingsAfter(trace, e);
    AtZeroMore(trace, e);
    if Proper(trace + [e]) {
      ProperBefore(trace, e);
      ClosedCounts(trace, d);
    }
  }

  lemma UsedSound(table: map<Name, Node>, trace: seq<Event>, name: Name)
    requires Sound(table, trace) && name in table
    ensures Sound(table, trace + [Used(name, table[name].dict)])
  {
    hide Balance, Closings, ClosedAtZero, Holder, Proper;
    var e := Used(name, table[name].dict);
    BalanceAfter(trace, e);
    HolderAfter(trace, e);
    ClosingsAfter(trace, e);
    AtZeroMore(trace, e);
    if Proper(trace + [e]) {
      ProperBefore(trace, e);
      ClosedCounts(trace, table[name].dict);
      assert forall i | 0 <= i < |trace| :: trace[i] in trace;
      assert forall i | 0 <= i < |trace| && trace[i].Closed? :: trace[i] == Closed(trace[i].dict);
    }
  }

  function Lessened(table: map<Name, Node>, name: Name): map<Name, Node>
    requires name in table
  {
    if table[name].refcount > 1 then table[name := Node(table[name].dict, table[name].refcount - 1)] else table - {name}
  }

  function Ending(name: Name, d: DictId, last: bool): seq<Event> {
    if last then [Unregistered(name, d), Closed(d)] else [Unregistered(name, d)]
  }

  lemma UnregisteredSound(table: map<Name, Node>, trace: seq<Event>, name: Name)
    requires Sound(table, trace) && name in table
    ensures Sound(Lessened(table, name), trace + Ending(name, table[name].dict, table[name].refcount == 1))
  {
    hide Balance, Closings, ClosedAtZero, Holder, Proper;
    var d := table[name].dict;
    var e := Unregistered(name, d);
    BalanceAfter(trace, e);
    HolderAfter(trace, e);
    ClosingsAfter(trace, e);
    if table[name].refcount > 1 {
      AtZeroMore(trace, e);
      if Proper(trace + [e]) {
        ProperBefore(trace, e);
      }
    } else {
      BalanceAfter(trace + [e], Closed(d));
      HolderAfter(trace + [e], Closed(d));
      ClosingsAfter(trace + [e], Closed(d));
      AtZeroClosed(trace, name, d);
      assert trace + Ending(name, d, true) == trace + [e] + [Closed(d)];
      if Proper(trace + [e] + [Closed(d)]) {
        ProperBefore(trace + [e], Closed(d));
        ProperBefore(trace, e);
        OtherNames(table, trace, name);
      }
    }
  }

  /** Under one name each, no two names hold the same dictionary. */
  lemma OtherNames(table: map<Name, Node>, trace: seq<Event>, name: Name)
    requires Counted(table, trace) && Proper(trace) && name in table
    ensures forall n | n in table && n != name :: table[n].dict != table[name].dict
  {
    hide Balance, Holder;
    var i := HolderRegistered(trace, name);
    forall n | n in table && n != name ensures table[n].dict != table[name].dict {
      var j := HolderRegistered(trace, n);
      assert i < j || j < i;
    }
  }

  /** What the table tells of the history. */
  lemma CountIs(table: map<Name, Node>, trace: seq<Event>, name: Name)
    requires Sound(table, trace)
    ensures Balance(trace, name) == if name in table then table[name].refcount else 0
    ensures name in table ==> table[name].refcount > 0 && table[name].dict == Holder(trace, name)
  {
    hide Balance, ClosedAtZero, ClosedWell, Proper, Holder;
  }

  lemma SoundMeans(table: map<Name, Node>, trace: seq<Event>)
    requires Sound(table, trace)
    ensures Proper(trace) ==> ClosedWell(table, trace)
  {
    hide Counted, ClosedAtZero, ClosedWell, Proper;
  }

  // ---- Programs

  /** A dictionary's own operations; `Sequence` stands for the three that traverse it. */
  datatype Operation = Lookup | Update | Delete | Sequence

  /** A hash table has lookup and update only. What an operation is missing for ends the program. */
  predicate Supports(table: bool, op: Operation, works: bool) {
    if table then op.Lookup? || op.Update? else works
  }

  /** The calls of a program. A dictionary that a name holds may be registered under that name again, or under
      another; a new one may be a hash table or not. What a dictionary does is part of the call: whether it has
      the operation, should it not be a hash table, and whether an entry was found, or was not there to be
      deleted. */
  datatype Call =
    | Start
    | RegisterNew(name: Name, table: bool)
    | RegisterUnder(name: Name, under: Name)
    | Drop(name: Name)
    | Touch(name: Name, works: bool)
    | Traverse(name: Name, works: bool)
    | Erase(name: Name, works: bool, missing: bool)
    | Find(name: Name, works: bool, found: bool)

  /** The call gives no dictionary a second name. */
  predicate OneName(call: Call) {
    call.RegisterUnder? ==> call.under == call.name
  }

  /** The history so far, the next new dictionary, those that are hash tables, whether the registry was
      initialised, and how the last call ended. */
  datatype Story = Story(trace: seq<Event>, next: DictId, tables: set<DictId>, ready: bool, outcome: Outcome)

  /** What using a name adds, when it may be used. */
  function Touched(s: Story, name: Name): Story {
    if Balance(s.trace, name) > 0 then s.(trace := s.trace + [Used(name, Holder(s.trace, name))])
    else
      s.(trace := s.trace + [Implied(name, s.next)] + [Used(name, s.next)], next := s.next + 1,
         tables := s.tables + {s.next})
  }

  /** The dictionary that using a name gets to is a hash table. */
  predicate OnTable(s: Story, name: Name) {
    Balance(s.trace, name) > 0 ==> Holder(s.trace, name) in s.tables
  }

  /** The dictionary's own operation is called; the program ends there if it has none, or by its answer. */
  function Operated(s: Story, allowed: bool, name: Name, op: Operation, works: bool, bad: bool): Story {
    if !s.ready || (Balance(s.trace, name) <= 0 && !allowed) then s.(outcome := Fatal)
    else
      Touched(s, name).(outcome :=
        if !Supports(OnTable(s, name), op, works) || (bad && !allowed) then Fatal else Done)
  }

  /** What a call does, told by the history alone: by the balance of its name and the dictionary it holds. */
  function Told(s: Story, allowed: bool, call: Call): Story {
    var known := !call.Start? && Balance(s.trace, call.name) > 0;
    match call
    case Start => s.(ready := true, outcome := Done)
    case RegisterNew(name, table) =>
      var made := s.(next := s.next + 1, tables := if table then s.tables + {s.next} else s.tables);
      if !s.ready || known then made.(outcome := Fatal)
      else made.(trace := s.trace + [Registered(name, s.next)], outcome := Done)
    case RegisterUnder(name, under) =>
      var d := Holder(s.trace, name);
      if !s.ready || !known || (Balance(s.trace, under) > 0 && Holder(s.trace, under) != d) then s.(outcome := Fatal)
      else s.(trace := s.trace + [Registered(under, d)], outcome := Done)
    case Drop(name) =>
      if !s.ready then s.(outcome := Fatal)
      else if !known then s.(outcome := Panic)
      else
        s.(trace := s.trace + Ending(name, Holder(s.trace, name), Balance(s.trace, name) == 1), outcome := Done)
    case Touch(name, works) => Operated(s, allowed, name, Update, works, false)
    case Traverse(name, works) => Operated(s, allowed, name, Sequence, works, false)
    case Erase(name, works, missing) => Operated(s, allowed, name, Delete, works, missing)
    case Find(name, works, found) =>
      if s.ready && !known && allowed then s.(outcome := Done)
      else Operated(s, allowed, name, Lookup, works, !found)
  }

  /** A program, up to the first call that ends it. */
  function Tale(s: Story, allowed: bool, calls: seq<Call>): Story {
    if calls == [] then s
    else
      var t := Tale(s, allowed, calls[..|calls| - 1]);
      if t.outcome != Done then t else Told(t, allowed, calls[|calls| - 1])
  }

  /** A program that ends stays ended. */
  lemma {:induction false} EndsThere(s: Story, allowed: bool, calls: seq<Call>, n: nat)
    requires n <= |calls| && Tale(s, allowed, calls[..n]).outcome != Done
    ensures Tale(s, allowed, calls) == Tale(s, allowed, calls[..n])
    decreases |calls| - n
  {
    hide Told;
    if n == |calls| {
      assert calls[..n] == calls;
    } else {
      assert calls[..n + 1][..n] == calls[..n];
      EndsThere(s, allowed, calls, n + 1);
    }
  }

  // ---- What the operations of a hash table come to

  ghost predicate TablesKnown(s: Story) {
    Known(s.trace, s.next, s.tables)
  }

  lemma ToldKnown(s: Story, allowed: bool, call: Call)
    requires TablesKnown(s)
    ensures TablesKnown(Told(s, allowed, call))
  {
    hide Balance, Holder;
    if !call.Start? && Balance(s.trace, call.name) > 0 {
      var i := HolderRegistered(s.trace, call.name);
    }
  }

  lemma {:induction false} TaleKnown(s: Story, allowed: bool, calls: seq<Call>)
    requires TablesKnown(s)
    ensures TablesKnown(Tale(s, allowed, calls))
    decreases |calls|
  {
    hide TablesKnown, Told;
    if calls != [] {
      TaleKnown(s, allowed, calls[..|calls| - 1]);
      ToldKnown(Tale(s, allowed, calls[..|calls| - 1]), allowed, calls[|calls| - 1]);
    }
  }

  /** Deleting from a dictionary of unknown name, or traversing it, always ends the program, even where unknown
      names are allowed: the table made for the name has no such operation. */
  lemma UnknownDeleteEnds(s: Story, allowed: bool, name: Name, works: bool, missing: bool)
    requires Balance(s.trace, name) <= 0
    ensures Told(s, allowed, Erase(name, works, missing)).outcome == Fatal
    ensures Told(s, allowed, Traverse(name, works)).outcome == Fatal
  {
    hide Balance, Holder;
  }

  /** In any program that goes on after deleting from a dictionary or traversing it, the name holds a dictionary
      that is no hash table and that the program registered itself. */
  lemma DeletedWasRegistered(allowed: bool, calls: seq<Call>, last: Call) returns (i: nat)
    requires last.Erase? || last.Traverse?
    requires Tale(Story([], 0, {}, false, Done), allowed, calls + [last]).outcome == Done
    ensures var s := Tale(Story([], 0, {}, false, Done), allowed, calls);
            && Balance(s.trace, last.name) > 0 && Holder(s.trace, last.name) !in s.tables && last.works
            && i < |s.trace| && s.trace[i].Registered? && s.trace[i].dict == Holder(s.trace, last.name)
  {
    hide Balance, Holder;
    var start := Story([], 0, {}, false, Done);
    var s := Tale(start, allowed, calls);
    assert (calls + [last])[..|calls + [last]| - 1] == calls;
    TaleKnown(start, allowed, calls);
    i := HolderRegistered(s.trace, last.name);
  }

  /** Where unknown names are allowed, a new name can be put to use: after an update, an entry that is there is
      found, in a hash table made for the name. */
  lemma NewNameIsUsable(s: Story, name: Name, works: bool, works': bool)
    requires s.ready && s.outcome == Done && Balance(s.trace, name) == 0
    ensures var t := Tale(s, true, [Touch(name, works), Find(name, works', true)]);
            && t.outcome == Done && Balance(t.trace, name) == 1 && Holder(t.trace, name) == s.next && s.next in t.tables
            && t.trace == s.trace + [Implied(name, s.next), Used(name, s.next), Used(name, s.next)]
  {
    hide Balance, Holder;
    var i, u := Implied(name, s.next), Used(name, s.next);
    var calls: seq<Call> := [Touch(name, works), Find(name, works', true)];
    assert calls[..1] == [Touch(name, works)] && calls[..1][..0] == [];
    assert Tale(s, true, calls[..0]) == s;
    Counts(s.trace, i);
    Counts(s.trace + [i], u);
    Counts(s.trace + [i] + [u], u);
    var t := Told(s, true, calls[0]);
    assert t.trace == s.trace + [i] + [u] && t.outcome == Done;
    assert Tale(s, true, calls[..1]) == t;
    assert Told(t, true, calls[1]).trace == s.trace + [i] + [u] + [u];
    assert s.trace + [i, u, u] == s.trace + [i] + [u] + [u];
  }

  // ---- A dictionary with two names

  /** Closing a dictionary when a name's balance gets to zero keeps it that each is closed at most once, and
      none of the table is closed, if and only if no other name of the table holds it. */
  lemma ClosesOnceIff(table: map<Name, Node>, trace: seq<Event>, name: Name)
    requires Counted(table, trace) && ClosedOnce(table, trace) && name in table && table[name].refcount == 1
    ensures ClosedOnce(Lessened(table, name), trace + Ending(name, table[name].dict, true))
      <==> forall n | n in table && n != name :: table[n].dict != table[name].dict
  {
    hide Closings, Balance, Holder;
    var d := table[name].dict;
    var u := Unregistered(name, d);
    var after := Lessened(table, name);
    assert after == table - {name};
    assert trace + Ending(name, d, true) == trace + [u] + [Closed(d)];
    ClosingsAfter(trace, u);
    ClosingsAfter(trace + [u], Closed(d));
    if ClosedOnce(after, trace + Ending(name, d, true)) {
      forall n | n in table && n != name ensures table[n].dict != d {
        assert n in after && after[n] == table[n];
      }
    }
  }

  /** A program on which the promise fails: one dictionary under two names is closed by each of them. */
  lemma ClosedTwice(allowed: bool)
    ensures var calls := [Start, RegisterNew("a", false), RegisterUnder("a", "b"), Drop("a"), Drop("b")];
            var s := Tale(Story([], 0, {}, false, Done), allowed, calls);
            s.outcome == Done && Closings(s.trace, 0) == 2
  {
    hide Balance, Holder, Closings, Tale;
    var s0 := Story([], 0, {}, false, Done);
    NothingTold(s0, allowed);
    var c1 := [] + [Start];
    var s1 := s0.(ready := true);
    TaleMore(s0, allowed, [], Start, s1);
    var c2, t2 := c1 + [RegisterNew("a", false)], [] + [Registered("a", 0)];
    var s2 := s1.(trace := t2, next := 1);
    TaleMore(s0, allowed, c1, RegisterNew("a", false), s2);
    Counts([], Registered("a", 0));
    var c3, t3 := c2 + [RegisterUnder("a", "b")], t2 + [Registered("b", 0)];
    var s3 := s2.(trace := t3);
    TaleMore(s0, allowed, c2, RegisterUnder("a", "b"), s3);
    Counts(t2, Registered("b", 0));
    var c4, t4 := c3 + [Drop("a")], t3 + [Unregistered("a", 0)] + [Closed(0)];
    var s4 := s3.(trace := t4);
    assert t3 + Ending("a", 0, true) == t4;
    TaleMore(s0, allowed, c3, Drop("a"), s4);
    Counts(t3, Unregistered("a", 0));
    Counts(t3 + [Unregistered("a", 0)], Closed(0));
    var c5, t5 := c4 + [Drop("b")], t4 + [Unregistered("b", 0)] + [Closed(0)];
    assert t4 + Ending("b", 0, true) == t5;
    TaleMore(s0, allowed, c4, Drop("b"), s4.(trace := t5));
    Counts(t4, Unregistered("b", 0));
    Counts(t4 + [Unregistered("b", 0)], Closed(0));
    assert c5 == [Start, RegisterNew("a", false), RegisterUnder("a", "b"), Drop("a"), Drop("b")];
  }

  lemma NothingTold(s: Story, allowed: bool)
    ensures Tale(s, allowed, []) == s
    ensures forall name :: Balance([], name) == 0
    ensures forall d :: Closings([], d) == 0
  {
  }

  lemma TaleMore(s: Story, allowed: bool, calls: seq<Call>, call: Call, t: Story)
    requires Tale(s, allowed, calls).outcome == Done && Told(Tale(s, allowed, calls), allowed, call) == t
    ensures Tale(s, allowed, calls + [call]) == t
  {
    hide Told;
    assert (calls + [call])[..|calls + [call]| - 1] == calls;
  }

  /** What one more event adds to balances, holders and closings. */
  lemma Counts(trace: seq<Event>, e: Event)
    ensures forall name :: Balance(trace + [e], name) == Balance(trace, name) + Weight(e, name)
    ensures forall name ::
      Holder(trace + [e], name) == if Registers(e) && e.name == name then e.dict else Holder(trace, name)
    ensures forall d :: Closings(trace + [e], d) == Closings(trace, d) + if e == Closed(d) then 1 else 0
  {
    hide Balance, Holder, Closings;
    BalanceAfter(trace, e);
    HolderAfter(trace, e);
    ClosingsAfter(trace, e);
  }

  class Registry {
    const unknownAllowed: bool
    var ready: bool
    var table: map<Name, Node>
    var next: DictId
    var tables: set<DictId>

    ghost var trace: seq<Event>

    ghost predicate Valid()
      reads this
    {
      Sound(table, trace) && Known(trace, next, tables) && (!ready ==> table == map[])
    }

    constructor (unknownAllowed: bool)
      ensures Valid() && !ready && trace == [] && next == 0 && tables == {}
      ensures this.unknownAllowed == unknownAllowed
    {
      this.unknownAllowed := unknownAllowed;
      ready, table, next, tables, trace := false, map[], 0, {}, [];
    }

    ghost function Now(outcome: Outcome): Story
      reads this
    {
      Story(trace, next, tables, ready, outcome)
    }

    /** `dict_init` */
    method Init()
      requires Valid()
      modifies this`ready
      ensures Valid() && ready
    {
      ready := true;
    }

    /** A new dictionary, a hash table as by `dict_ht_open` or of another kind */
    method NewDict(isTable: bool) returns (d: DictId)
      requires Valid()
      modifies this`next, this`tables
      ensures Valid() && d == old(next) && next == old(next) + 1 && forall name :: Fits(trace, name, d)
      ensures d !in old(tables) && tables == if isTable then old(tables) + {d} else old(tables)
    {
      hide Sound, Fits;
      d := next;
      forall name ensures Fits(trace, name, d) { NewFits(trace, d, tables, name); }
      next := next + 1;
      if isTable {
        tables := tables + {d};
      }
    }

    /** `dict_register`; `implied` tells the registrations made by the other calls from those of callers. The
        dictionary may have any number of names; what is proved of closings is for those with one. */
    method Register(name: Name, d: DictId, implied: bool) returns (outcome: Outcome)
      requires Valid() && d < next && (implied ==> d in tables)
      modifies this`table, this`trace
      ensures Valid()
      ensures outcome
        == if ready && (Balance(old(trace), name) > 0 ==> Holder(old(trace), name) == d) then Done else Fatal
      ensures outcome == Fatal ==> table == old(table) && trace == old(trace)
      ensures outcome == Done ==>
        && trace == old(trace) + [if implied then Implied(name, d) else Registered(name, d)]
        && table == Added(old(table), name, d)
      ensures Proper(old(trace)) && Fits(old(trace), name, d) ==> Proper(trace)
    {
      hide Sound, Balance, Holder, Proper, Fits;
      CountIs(table, trace, name);
      if !ready {
        return Fatal;
      }
      if name in table && table[name].dict != d {
        return Fatal;
      }
      ghost var e := if implied then Implied(name, d) else Registered(name, d);
      RegisteredSound(table, trace, name, d, e);
      if Proper(trace) && Fits(trace, name, d) {
        ProperAfter(trace, e);
      }
      if name !in table {
        table := table[name := Node(d, 0)];
      }
      table := table[name := table[name].(refcount := table[name].refcount + 1)];
      assert table == Added(old(table), name, d);
      trace := trace + [e];
      return Done;
    }

    /** `dict_handle` */
    method Handle(name: Name) returns (d: Option<DictId>)
      requires Valid()
      ensures d == if Balance(trace, name) > 0 then Some(Holder(trace, name)) else None
      ensures d.Some? && Proper(trace) ==> Closed(d.value) !in trace
    {
      hide Sound, Balance, Holder, Proper;
      CountIs(table, trace, name);
      if ready && name in table {
        OpenInTable(table, trace, name);
        return Some(table[name].dict);
      }
      return None;
    }

    /** `dict_unregister` */
    method Unregister(name: Name) returns (outcome: Outcome)
      requires Valid()
      modifies this`table, this`trace
      ensures Valid()
      ensures outcome == if !ready then Fatal else if Balance(old(trace), name) > 0 then Done else Panic
      ensures outcome != Done ==> table == old(table) && trace == old(trace)
      ensures outcome == Done ==>
        trace == old(trace) + Ending(name, Holder(old(trace), name), Balance(old(trace), name) == 1)
      ensures Proper(old(trace)) ==> Proper(trace)
    {
      hide Sound, Balance, Holder, Proper;
      CountIs(table, trace, name);
      if !ready {
        return Fatal;
      }
      if name !in table {
        return Panic;
      }
      var d := table[name].dict;
      UnregisteredSound(table, trace, name);
      HolderKnown(table, trace, next, tables, name);
      EndingProper(trace, name, d, table[name].refcount == 1);
      ghost var last := table[name].refcount == 1;
      table := table[name := table[name].(refcount := table[name].refcount - 1)];
      if table[name].refcount == 0 {
        table := table - {name};
      }
      assert table == Lessened(old(table), name);
      trace := trace + Ending(name, d, last);
      return Done;
    }

    /** The dictionary of a name whose own operation is about to be called: an unknown name is registered with a
        new hash table, if that is allowed. */
    method Reach(name: Name) returns (d: Option<DictId>)
      requires Valid()
      modifies this`table, this`trace, this`next, this`tables
      ensures Valid()
      ensures d == None <==> !ready || (Balance(old(trace), name) <= 0 && !unknownAllowed)
      ensures d == None ==> Now(Done) == old(Now(Done))
      ensures d.Some? ==> Now(Done) == Touched(old(Now(Done)), name) && trace[|trace| - 1] == Used(name, d.value)
      ensures Proper(old(trace)) ==> Proper(trace)
    {
      hide Sound, Balance, Holder, Proper, Fits;
      CountIs(table, trace, name);
      if !ready {
        return None;
      }
      if name !in table {
        if !unknownAllowed {
          return None;
        }
        var made := NewDict(true);
        var registered := Register(name, made, true);
      }
      CountIs(table, trace, name);
      UsedSound(table, trace, name);
      HolderKnown(table, trace, next, tables, name);
      if Proper(trace) {
        ProperAfter(trace, Used(name, table[name].dict));
      }
      trace := trace + [Used(name, table[name].dict)];
      return Some(table[name].dict);
    }

    /** `dict_update`, `dict_sequence_reset`, `dict_sequence_delcur` and `dict_sequence`, and the first part of
        `dict_delete`: then the dictionary's own operation is called. `works` tells whether a dictionary of
        another kind has that operation. */
    method Use(name: Name, op: Operation, works: bool) returns (outcome: Outcome)
      requires Valid()
      modifies this`table, this`trace, this`next, this`tables
      ensures Valid() && Now(outcome) == Operated(old(Now(Done)), unknownAllowed, name, op, works, false)
      ensures Proper(old(trace)) ==> Proper(trace)
    {
      hide Sound, Balance, Holder, Proper, Supports;
      CountIs(table, trace, name);
      HolderKnown(table, trace, next, tables, name);
      var d := Reach(name);
      if d == None {
        return Fatal;
      }
      return if Supports(d.value in tables, op, works) then Done else Fatal;
    }

    /** `dict_delete`: `missing` is the dictionary's answer, if it gives one. */
    method Delete(name: Name, works: bool, missing: bool) returns (outcome: Outcome)
      requires Valid()
      modifies this`table, this`trace, this`next, this`tables
      ensures Valid() && Now(outcome) == Told(old(Now(Done)), unknownAllowed, Erase(name, works, missing))
      ensures outcome == Done <==>
        && ready && Balance(old(trace), name) > 0 && Holder(old(trace), name) !in tables && works
        && (!missing || unknownAllowed)
      ensures Proper(old(trace)) ==> Proper(trace)
    {
      hide Sound, Balance, Holder, Proper;
      outcome := Use(name, Operation.Delete, works);
      if outcome == Done && missing && !unknownAllowed {
        return Fatal;
      }
    }

    /** `dict_lookup`; an unknown name is not registered. `found` is the answer of the dictionary. */
    method Lookup(name: Name, works: bool, found: bool) returns (outcome: Outcome, hit: bool)
      requires Valid()
      modifies this`trace
      ensures Valid()
      ensures hit == (outcome == Done && Balance(old(trace), name) > 0 && found)
      ensures outcome == Done <==>
        && ready && (unknownAllowed || (Balance(old(trace), name) > 0 && found))
        && (Balance(old(trace), name) > 0 ==> Holder(old(trace), name) in tables || works)
      ensures Now(outcome) == Told(old(Now(Done)), unknownAllowed, Find(name, works, found))
      ensures Proper(old(trace)) ==> Proper(trace)
    {
      hide Sound, Balance, Holder, Proper;
      CountIs(table, trace, name);
      HolderKnown(table, trace, next, tables, name);
      if !ready {
        return Fatal, false;
      }
      if name !in table {
        if !unknownAllowed {
          return Fatal, false;
        }
        return Done, false;
      }
      UsedSound(table, trace, name);
      if Proper(trace) {
        ProperAfter(trace, Used(name, table[name].dict));
      }
      trace := trace + [Used(name, table[name].dict)];
      if !Supports(table[name].dict in tables, Operation.Lookup, works) || (!found && !unknownAllowed) {
        return Fatal, false;
      }
      return Done, found;
    }

    /** One call of a program. */
    method Perform(call: Call) returns (outcome: Outcome)
      requires Valid()
      modifies this`ready, this`table, this`next, this`tables, this`trace
      ensures Valid() && Now(outcome) == Told(old(Now(Done)), unknownAllowed, call)
      ensures Proper(old(trace)) && OneName(call) ==> Proper(trace)
    {
      hide Sound, Balance, Holder, Proper, Fits;
      match call
      case Start =>
        Init();
        outcome := Done;
      case RegisterNew(name, isTable) =>
        CountIs(table, trace, name);
        HolderKnown(table, trace, next, tables, name);
        var d := NewDict(isTable);
        outcome := Register(name, d, false);
      case RegisterUnder(name, under) =>
        CountIs(table, trace, name);
        var held := Handle(name);
        if held == None {
          return Fatal;
        }
        if Proper(trace) {
          AgainFits(table, trace, name);
        }
        HolderKnown(table, trace, next, tables, name);
        outcome := Register(under, held.value, false);
      case Drop(name) =>
        outcome := Unregister(name);
      case Touch(name, works) =>
        outcome := Use(name, Operation.Update, works);
      case Traverse(name, works) =>
        outcome := Use(name, Sequence, works);
      case Erase(name, works, missing) =>
        outcome := Delete(name, works, missing);
      case Find(name, works, found) =>
        var hit;
        outcome, hit := Lookup(name, works, found);
    }

    /** Any program, up to the first call that ends it: the history is the one its calls tell. */
    method Run(calls: seq<Call>) returns (outcome: Outcome)
      requires Valid()
      modifies this`ready, this`table, this`next, this`tables, this`trace
      ensures Valid() && Now(outcome) == Tale(old(Now(Done)), unknownAllowed, calls)
      ensures Proper(old(trace)) && (forall call | call in calls :: OneName(call)) ==> ClosedWell(table, trace)
    {
      hide Sound, Told, Proper, ClosedWell, OneName;
      outcome := Done;
      var i := 0;
      while i < |calls|
        invariant 0 <= i <= |calls| && Valid() && outcome == Done
        invariant Now(Done) == Tale(old(Now(Done)), unknownAllowed, calls[..i])
        invariant Proper(old(trace)) && (forall call | call in calls :: OneName(call)) ==> Proper(trace)
      {
        assert calls[i] in calls;
        assert calls[..i + 1][..i] == calls[..i];
        outcome := Perform(calls[i]);
        i := i + 1;
        if outcome != Done {
          EndsThere(old(Now(Done)), unknownAllowed, calls, i);
          SoundMeans(table, trace);
          return;
        }
      }
      assert calls[..i] == calls;
      SoundMeans(table, trace);
    }
  }

  lemma OpenInTable(table: map<Name, Node>, trace: seq<Event>, name: Name)
    requires Sound(table, trace) && name in table
    ensures Proper(trace) ==> Closed(table[name].dict) !in trace
  {
    hide Balance, Closings, Holder, ClosedAtZero, Proper;
    ClosedCounts(trace, table[name].dict);
  }

  lemma HolderKnown(table: map<Name, Node>, trace: seq<Event>, next: DictId, tables: set<DictId>, name: Name)
    requires Sound(table, trace) && Known(trace, next, tables)
    ensures name in table ==> table[name].dict < next && table[name].dict == Holder(trace, name)
  {
    hide Balance, Holder, ClosedAtZero, ClosedWell, Proper;
    CountIs(table, trace, name);
    if name in table {
      var i := HolderRegistered(trace, name);
    }
  }

  lemma AgainFits(table: map<Name, Node>, trace: seq<Event>, name: Name)
    requires Sound(table, trace) && Proper(trace)
    ensures name in table ==> Fits(trace, name, Holder(trace, name))
  {
    hide Balance, Holder, ClosedAtZero, Proper, Fits, ClosedOnce;
    CountIs(table, trace, name);
    if name in table {
      HolderFits(table, trace, name);
    }
  }

  lemma EndingProper(trace: seq<Event>, name: Name, d: DictId, last: bool)
    ensures Proper(trace) ==> Proper(trace + Ending(name, d, last))
  {
    hide Proper;
    if Proper(trace) {
      ProperAfter(trace, Unregistered(name, d));
      if last {
        ProperAfter(trace + [Unregistered(name, d)], Closed(d));
        assert trace + Ending(name, d, last) == trace + [Unregistered(name, d)] + [Closed(d)];
      }
    }
  }
}
