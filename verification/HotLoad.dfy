/** Loading a dictionary from a text file that somebody may be changing: the file is read again until its time
    stamp shows that it was left alone. The clock, the writer and the loader take steps in any order. */
module HotLoad {
  import opened ByteStrings

  /** A logical line: a name with its value, or something that is not that. */
  datatype Line = Pair(key: Bytes, val: Bytes) | Malformed

  /** Where `dict_load_file` is: about to read the clock, to open, to read a line, to look at the time stamp,
      to read the clock again; or done, or ended by a malformed line. */
  datatype Pc = Begin | Opening | Reading | Looking | Timing | Done | Failed

  /** `versions` are all contents the file ever had, the last being the current one. `base` and `looked` tell
      which version was current when `before` and the time stamp were read. */
  datatype State = State(
    now: nat,
    versions: seq<seq<Line>>,
    mtime: nat,
    pc: Pc,
    before: nat,
    pos: nat,
    stamp: nat,
    dict: map<Bytes, Bytes>,
    base: nat,
    looked: nat)

  /** A change may be stamped late, with the second before, as by a clock that file systems read less often than
      programs do. A read that falls into a change may deliver anything: any line, or the end of the file. */
  datatype Action = Tick | Modify(lines: seq<Line>, late: bool) | Step | Torn(read: Option<Line>)

  function Current(s: State): nat {
    if s.versions == [] then 0 else |s.versions| - 1
  }

  function Lines(s: State): seq<Line> {
    if s.versions == [] then [] else s.versions[|s.versions| - 1]
  }

  /** The loader is given the next line, or the end of the file. */
  function Took(s: State, read: Option<Line>): State {
    match read
    case None => s.(pc := Looking)
    case Some(Pair(key, val)) => s.(dict := s.dict[key := val], pos := s.pos + 1)
    case Some(Malformed) => s.(pc := Failed)
  }

  /** The next step of the loader. The time stamp and the clock are in whole seconds. */
  function Load(s: State): State {
    match s.pc
    case Begin => s.(before := s.now, base := Current(s), pc := Opening)
    case Opening => s.(pos := 0, pc := Reading)
    case Reading => Took(s, if s.pos < |Lines(s)| then Some(Lines(s)[s.pos]) else None)
    case Looking => s.(stamp := s.mtime, looked := Current(s), pc := Timing)
    case Timing =>
      var after := s.now;
      if s.stamp < s.before - 1 || s.stamp > after then s.(pc := Done)
      else s.(before := after, base := Current(s), pc := Opening)
    case Done => s
    case Failed => s
  }

  function Apply(s: State, a: Action): State {
    match a
    case Tick => s.(now := s.now + 1)
    case Modify(lines, late) =>
      s.(versions := s.versions + [lines], mtime := if late && s.mtime < s.now then s.now - 1 else s.now)
    case Step => Load(s)
    case Torn(read) => if s.pc == Reading && s.base < Current(s) then Took(s, read) else s
  }

  function After(s: State, run: seq<Action>): State
    decreases |run|
  {
    if run == [] then s else Apply(After(s, run[..|run| - 1]), run[|run| - 1])
  }

  /** `i` is the last of the first `n` lines with its key. */
  predicate LastOf(lines: seq<Line>, n: nat, i: nat) {
    && i < n <= |lines| && lines[i].Pair?
    && forall j | i < j < n && lines[j].Pair? :: lines[j].key != lines[i].key
  }

  /** The dictionary has, for every key among the first `n` lines, the value of the last of them. */
  ghost predicate Agrees(dict: map<Bytes, Bytes>, lines: seq<Line>, n: nat) {
    && n <= |lines| && (forall i | 0 <= i < n :: lines[i].Pair?)
    && forall i: nat | LastOf(lines, n, i) :: lines[i].key in dict && dict[lines[i].key] == lines[i].val
  }

  lemma AgreesMore(dict: map<Bytes, Bytes>, lines: seq<Line>, n: nat)
    requires Agrees(dict, lines, n) && n < |lines| && lines[n].Pair?
    ensures Agrees(dict[lines[n].key := lines[n].val], lines, n + 1)
  {
    var dict' := dict[lines[n].key := lines[n].val];
    forall i: nat | LastOf(lines, n + 1, i) ensures lines[i].key in dict' && dict'[lines[i].key] == lines[i].val {
      if i < n {
        assert LastOf(lines, n, i) && lines[n].key != lines[i].key;
      }
    }
  }

  /** The last pass so far has read what was there when it began. */
  ghost predicate PassKnown(s: State) {
    match s.pc
    case Reading => s.base == Current(s) ==> Agrees(s.dict, Lines(s), s.pos)
    case Looking => s.base == Current(s) ==> Agrees(s.dict, Lines(s), |Lines(s)|)
    case Timing => s.looked == s.base < |s.versions| ==> Agrees(s.dict, s.versions[s.base], |s.versions[s.base]|)
    case Done => s.looked == s.base < |s.versions| && Agrees(s.dict, s.versions[s.base], |s.versions[s.base]|)
    case _ => true
  }

  /** No time stamp is ahead of the clock, and a change since `before` was read shows in the stamp, up to one
      second. */
  ghost predicate Stamped(s: State) {
    && s.mtime <= s.now && s.versions != [] && s.base < |s.versions| && s.looked < |s.versions|
    && (s.pc != Begin ==> s.before <= s.now && (s.base < Current(s) ==> s.before <= s.mtime + 1))
    && (s.pc == Timing ==>
          s.base <= s.looked && s.stamp <= s.mtime && (s.base < s.looked ==> s.before <= s.stamp + 1))
  }

  ghost predicate Inv(s: State) {
    Stamped(s) && PassKnown(s)
  }

  function Start(now: nat, lines: seq<Line>, mtime: nat, dict: map<Bytes, Bytes>): State {
    State(now, [lines], mtime, Begin, 0, 0, 0, dict, 0, 0)
  }

  lemma ModifyKeeps(s: State, lines: seq<Line>, late: bool)
    requires Inv(s)
    ensures Inv(Apply(s, Modify(lines, late)))
  {
    hide Agrees;
    var t := Apply(s, Modify(lines, late));
    assert t.versions[s.base] == s.versions[s.base];
  }

  lemma ReadKeeps(s: State)
    requires Inv(s) && s.pc == Reading
    ensures Inv(Load(s))
  {
    hide LastOf;
    if s.pos < |Lines(s)| && s.base == Current(s) && Lines(s)[s.pos].Pair? {
      hide Agrees;
      AgreesMore(s.dict, Lines(s), s.pos);
    }
  }

  lemma InvStep(s: State, a: Action)
    requires Inv(s)
    ensures Inv(Apply(s, a))
  {
    match a
    case Tick =>
    case Modify(lines, late) => ModifyKeeps(s, lines, late);
    case Torn(read) =>
    case Step =>
      if s.pc == Reading {
        ReadKeeps(s);
      }
  }

  lemma {:induction false} RunInv(s: State, run: seq<Action>)
    requires Inv(s)
    ensures Inv(After(s, run))
    decreases |run|
  {
    hide Inv, Apply;
    if run != [] {
      RunInv(s, run[..|run| - 1]);
      InvStep(After(s, run[..|run| - 1]), run[|run| - 1]);
    }
  }

  /** Whatever the writer does and when: if the load finishes, one version was current from before its last
      pass until after it, and the dictionary agrees with that version on every key in it, later lines
      winning. */
  lemma StableRead(now: nat, lines: seq<Line>, mtime: nat, dict: map<Bytes, Bytes>, run: seq<Action>)
    requires mtime <= now && After(Start(now, lines, mtime, dict), run).pc == Done
    ensures var s := After(Start(now, lines, mtime, dict), run);
            && s.base == s.looked < |s.versions|
            && Agrees(s.dict, s.versions[s.base], |s.versions[s.base]|)
  {
    hide After, Agrees, Load;
    RunInv(Start(now, lines, mtime, dict), run);
  }

  /** The second half of the loop's exit test is never what ends it. */
  lemma NeverAhead(now: nat, lines: seq<Line>, mtime: nat, dict: map<Bytes, Bytes>, run: seq<Action>)
    requires mtime <= now && After(Start(now, lines, mtime, dict), run).pc == Timing
    ensures var s := After(Start(now, lines, mtime, dict), run);
            s.stamp <= s.now && (Load(s).pc == Done <==> s.stamp < s.before - 1)
  {
    hide After, Agrees;
    RunInv(Start(now, lines, mtime, dict), run);
  }

  // ---- What a load leaves of what was there before

  /** The line is in some version of the file. */
  predicate InFile(s: State, line: Line) {
    exists i :: 0 <= i < |s.versions| && line in s.versions[i]
  }

  /** It was delivered by a read that fell into a change. */
  predicate Delivered(run: seq<Action>, line: Line) {
    Torn(Some(line)) in run
  }

  /** The loader may have read this line. */
  predicate Mentioned(s: State, run: seq<Action>, line: Line) {
    InFile(s, line) || Delivered(run, line)
  }

  /** Nothing is lost, and what is there was there before or stands in a line. */
  ghost predicate Merged(was: map<Bytes, Bytes>, s: State, run: seq<Action>) {
    && s.versions != []
    && (forall key | key in was :: key in s.dict)
    && (forall key | key in s.dict ::
          (key in was && s.dict[key] == was[key]) || Mentioned(s, run, Pair(key, s.dict[key])))
  }

  lemma MentionedStays(s: State, a: Action, run: seq<Action>, line: Line)
    requires Mentioned(s, run, line)
    ensures Mentioned(Apply(s, a), run + [a], line)
  {
    if InFile(s, line) {
      var i :| 0 <= i < |s.versions| && line in s.versions[i];
      assert Apply(s, a).versions[i] == s.versions[i];
    }
  }

  /** A step enters at most one line, one that is mentioned. */
  lemma EntersMentioned(s: State, a: Action, run: seq<Action>) returns (line: Option<Line>)
    requires s.versions != []
    ensures match line
            case None => Apply(s, a).dict == s.dict
            case Some(l) =>
              l.Pair? && Apply(s, a).dict == s.dict[l.key := l.val] && Mentioned(Apply(s, a), run + [a], l)
  {
    line := None;
    if s.pc == Reading {
      if a.Step? && s.pos < |Lines(s)| && Lines(s)[s.pos].Pair? {
        line := Some(Lines(s)[s.pos]);
        assert s.versions[|s.versions| - 1] == Lines(s) && Apply(s, a).versions == s.versions;
        assert InFile(Apply(s, a), line.value);
      } else if a.Torn? && s.base < Current(s) && a.read.Some? && a.read.value.Pair? {
        line := a.read;
        assert (run + [a])[|run|] == a;
      }
    }
  }

  lemma MergedStep(was: map<Bytes, Bytes>, s: State, a: Action, run: seq<Action>)
    requires Merged(was, s, run)
    ensures Merged(was, Apply(s, a), run + [a])
  {
    var t := Apply(s, a);
    var line := EntersMentioned(s, a, run);
    assert t.versions != [];
    forall key | key in t.dict
      ensures (key in was && t.dict[key] == was[key]) || Mentioned(t, run + [a], Pair(key, t.dict[key]))
    {
      if line.Some? && line.value.key == key {
        assert line.value == Pair(key, t.dict[key]);
      } else if !(key in was && s.dict[key] == was[key]) {
        MentionedStays(s, a, run, Pair(key, s.dict[key]));
      }
    }
  }

  /** Whatever happens during a load: every key that was in the dictionary still is, and every key with its
      value was there before or stands in a line of some version of the file or in one that a read in a change
      delivered. */
  lemma {:induction false} LoadMerges(now: nat, lines: seq<Line>, mtime: nat, dict: map<Bytes, Bytes>,
                                      run: seq<Action>)
    ensures Merged(dict, After(Start(now, lines, mtime, dict), run), run)
    decreases |run|
  {
    if run != [] {
      var front := run[..|run| - 1];
      LoadMerges(now, lines, mtime, dict, front);
      hide After, Merged, Apply;
      MergedStep(dict, After(Start(now, lines, mtime, dict), front), run[|run| - 1], front);
      assert run == front + [run[|run| - 1]];
      Next(Start(now, lines, mtime, dict), front, run[|run| - 1]);
    }
  }

  /** So a key that no line has is left alone. */
  lemma OthersLeftAlone(now: nat, lines: seq<Line>, mtime: nat, dict: map<Bytes, Bytes>, run: seq<Action>, key: Bytes)
    requires forall val :: !Mentioned(After(Start(now, lines, mtime, dict), run), run, Pair(key, val))
    ensures var s := After(Start(now, lines, mtime, dict), run);
            (key in s.dict <==> key in dict) && (key in dict ==> s.dict[key] == dict[key])
  {
    hide After, Mentioned;
    LoadMerges(now, lines, mtime, dict, run);
  }

  // ---- The end of the loop

  /** How often the loader steps. */
  function StepsIn(run: seq<Action>): nat {
    if run == [] then 0 else StepsIn(run[..|run| - 1]) + if run[|run| - 1].Step? then 1 else 0
  }

  /** How many steps are left of a pass. */
  function LeftOfPass(s: State): nat {
    match s.pc
    case Begin => 1
    case Opening => |Lines(s)| + 4
    case Reading => (if s.pos < |Lines(s)| then |Lines(s)| - s.pos else 0) + 3
    case Looking => 2
    case Timing => 1
    case Done => 0
    case Failed => 0
  }

  /** And how many in all, when nobody writes any more: one more pass, unless this one began two seconds
      after the last change. */
  function Left(s: State): nat {
    if s.pc == Done || (s.pc != Begin && s.mtime + 2 <= s.before) then LeftOfPass(s)
    else LeftOfPass(s) + |Lines(s)| + 4
  }

  /** The file is well-formed, and two seconds have gone by since its last change. */
  ghost predicate Quiet(s: State) {
    && Inv(s) && s.pc != Failed && s.mtime + 2 <= s.now
    && forall i | 0 <= i < |Lines(s)| :: Lines(s)[i].Pair?
  }

  lemma QuietStep(s: State, a: Action)
    requires Quiet(s) && (a.Tick? || a.Step?)
    ensures Quiet(Apply(s, a)) && Lines(Apply(s, a)) == Lines(s)
    ensures a.Tick? ==> Left(Apply(s, a)) == Left(s)
    ensures a.Step? ==> Left(Apply(s, a)) < Left(s) || Apply(s, a).pc == Done
  {
    hide Inv;
    InvStep(s, a);
    if s.pc == Timing {
      StampNotAhead(s);
    }
    assert Lines(Apply(s, a)) == Lines(s);
    assert s.pc == Reading && s.pos < |Lines(s)| ==> Lines(s)[s.pos].Pair?;
    assert Apply(s, a).pc != Failed;
  }

  lemma StampNotAhead(s: State)
    requires Inv(s) && s.pc == Timing
    ensures s.stamp <= s.mtime
  {
  }

  lemma {:induction false} QuietRun(s: State, run: seq<Action>)
    requires Quiet(s) && forall a | a in run :: a.Tick? || a.Step?
    ensures Quiet(After(s, run)) && Lines(After(s, run)) == Lines(s)
    ensures After(s, run).pc == Done || Left(After(s, run)) + StepsIn(run) <= Left(s)
    decreases |run|
  {
    hide Quiet, Apply, Lines, Left;
    if run != [] {
      QuietRun(s, run[..|run| - 1]);
      var t := After(s, run[..|run| - 1]);
      assert run[|run| - 1] in run;
      QuietStep(t, run[|run| - 1]);
      if t.pc == Done {
        DoneStays(t, run[|run| - 1]);
      }
    }
  }

  lemma DoneStays(s: State, a: Action)
    requires s.pc == Done && (a.Tick? || a.Step?)
    ensures Apply(s, a).pc == Done
  {
  }

  /** Once nobody writes any more and the clock has moved on by two seconds, the loop ends, whatever state it
      is in: after at most one more pass than the one under way, and with this one if it began as late. */
  lemma QuietFileEndsTheLoop(s: State, run: seq<Action>)
    requires Quiet(s) && (forall a | a in run :: a.Tick? || a.Step?)
    requires StepsIn(run) >= 2 * |Lines(s)| + 8
      || (s.pc == Opening && s.mtime + 2 <= s.before && StepsIn(run) >= |Lines(s)| + 4)
    ensures After(s, run).pc == Done
  {
    QuietRun(s, run);
    hide After, Inv;
    var t := After(s, run);
    assert t.pc != Failed;
    assert t.pc != Done ==> Left(t) > 0;
  }

  /** So from any state that a load can get into, the loop ends once the file is well-formed, the writer has
      stopped and two seconds have gone by, unless a malformed line has ended the program before. */
  lemma LoadEnds(now: nat, lines: seq<Line>, mtime: nat, dict: map<Bytes, Bytes>, before: seq<Action>,
                 after: seq<Action>)
    requires mtime <= now && forall a | a in after :: a.Tick? || a.Step?
    requires var s := After(Start(now, lines, mtime, dict), before);
             && s.pc != Failed && s.mtime + 2 <= s.now && StepsIn(after) >= 2 * |Lines(s)| + 8
             && forall i | 0 <= i < |Lines(s)| :: Lines(s)[i].Pair?
    ensures After(After(Start(now, lines, mtime, dict), before), after).pc == Done
  {
    hide After;
    RunInv(Start(now, lines, mtime, dict), before);
    QuietFileEndsTheLoop(After(Start(now, lines, mtime, dict), before), after);
  }

  lemma Next(s: State, run: seq<Action>, a: Action)
    ensures After(s, run + [a]) == Apply(After(s, run), a)
  {
    assert (run + [a])[..|run + [a]| - 1] == run;
  }

  /** A key of an earlier version stays in the dictionary when it is gone from the file. */
  lemma OldKeysMayRemain(now: nat, gone: Bytes, val: Bytes) returns (run: seq<Action>)
    ensures var s := After(Start(now, [Pair(gone, val)], now, map[]), run);
            && s.pc == Done && s.versions == [[Pair(gone, val)], []] && s.base == 1 && s.dict == map[gone := val]
  {
    hide After;
    var s := Start(now, [Pair(gone, val)], now, map[]);
    run := FirstPass(now, gone, val);
    Next(s, run, Modify([], false));
    Next(s, run + [Modify([], false)], Tick);
    Next(s, run + [Modify([], false)] + [Tick], Tick);
    run := run + [Modify([], false)] + [Tick] + [Tick];
    assert After(s, run) == State(now + 2, [[Pair(gone, val)], []], now, Timing, now, 1, now, map[gone := val], 0, 0);
    Next(s, run, Step);
    Next(s, run + [Step], Step);
    Next(s, run + [Step] + [Step], Step);
    run := run + [Step] + [Step] + [Step];
    assert After(s, run)
      == State(now + 2, [[Pair(gone, val)], []], now, Looking, now + 2, 0, now, map[gone := val], 1, 0);
    Next(s, run, Step);
    Next(s, run + [Step], Step);
    run := run + [Step] + [Step];
  }

  lemma FirstLine(now: nat, gone: Bytes, val: Bytes) returns (run: seq<Action>)
    ensures After(Start(now, [Pair(gone, val)], now, map[]), run)
      == State(now, [[Pair(gone, val)]], now, Reading, now, 1, 0, map[gone := val], 0, 0)
  {
    var s := Start(now, [Pair(gone, val)], now, map[]);
    run := [];
    assert After(s, run) == s;
    hide After;
    Next(s, run, Step);
    Next(s, run + [Step], Step);
    Next(s, run + [Step] + [Step], Step);
    run := run + [Step] + [Step] + [Step];
  }

  lemma FirstPass(now: nat, gone: Bytes, val: Bytes) returns (run: seq<Action>)
    ensures After(Start(now, [Pair(gone, val)], now, map[]), run)
      == State(now, [[Pair(gone, val)]], now, Timing, now, 1, now, map[gone := val], 0, 0)
  {
    hide After, Start;
    var s := Start(now, [Pair(gone, val)], now, map[]);
    run := FirstLine(now, gone, val);
    Next(s, run, Step);
    Next(s, run + [Step], Step);
    run := run + [Step] + [Step];
  }
}
