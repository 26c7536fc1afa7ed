/**
 * Stopping the detection pipeline: the process sweeps that pick PIDs out of
 * `ps` listings and kill them, and the escalating shutdown of the detection
 * child itself. The operating system is a `Host` object whose behaviour is
 * given by three oracles (what `ps` prints, whether the monitor may signal a
 * process, and whether a process outlives a signal); it keeps apart the
 * processes that run and the monitor's own children that have ended but were
 * not collected, whose PIDs still answer `os.kill`. Every call made to it is
 * recorded in a ghost trace.
 */
module Reaper {
  import opened Wrappers
  import opened PyText

  /** `os.kill` signals; `Probe` is signal 0, which only asks whether the process exists. */
  datatype Signal = Probe | SigInt | SigTerm | SigKill

  /** The two listings scanned: `ps -ef` and `ps -eo pid,cmd`. */
  datatype Listing = Full | PidAndCommand

  /** A call made to the operating system. A listing records the pattern it is scanned for. */
  datatype OsCall =
    | Listed(listing: Listing, pattern: string)
    | Signalled(pid: int, signal: Signal)
    | Slept(seconds: real)
    | Spawned(child: int)
    | Reaped(child: int)
    | IpcPurged

  /** The PIDs of `pids` the monitor may signal: those a sweep can remove. */
  function Killable(pids: seq<int>, permitted: int -> bool): set<int> {
    set x | x in pids && permitted(x)
  }

  /** `{pid}` when the monitor may signal `pid`, otherwise nothing. */
  function IfPermitted(pid: int, permitted: int -> bool): set<int> {
    if permitted(pid) then {pid} else {}
  }

  /** The live processes after `signal` reaches `pid`. A probe changes nothing, SIGKILL always
      ends the process, any other signal ends it unless the oracle says it survives; no other
      process is affected, and signalling a process that is gone changes nothing. */
  function AfterSignal(live: set<int>, pid: int, signal: Signal, survives: (int, Signal) -> bool): (r: set<int>)
    ensures r <= live && r - {pid} == live - {pid}
    ensures pid in r <==> pid in live && signal != SigKill && (signal == Probe || survives(pid, signal))
  {
    if pid in live && signal != Probe && (signal == SigKill || !survives(pid, signal)) then live - {pid} else live
  }

  /** The ended, uncollected children once the running processes went from `before` to
      `after`: the monitor's children among those that stopped join the earlier ones. */
  function Uncollected(ended: set<int>, before: set<int>, after: set<int>, children: set<int>): set<int> {
    ended + (before - after) * children
  }

  /** Ending more processes adds up: the children that stopped in two stretches are those
      that stopped over both. */
  lemma UncollectedTrans(ended: set<int>, a: set<int>, b: set<int>, c: set<int>, children: set<int>)
    requires c <= b <= a
    ensures Uncollected(Uncollected(ended, a, b, children), b, c, children) == Uncollected(ended, a, c, children)
  {
  }

  /** The processes as the operating system holds them. */
  datatype Procs = Procs(live: set<int>, ended: set<int>, children: set<int>)

  /** The operating system as the monitor sees it. */
  class Host {
    /** PIDs of the processes that run. */
    var live: set<int>
    /** PIDs of the monitor's children that have ended but that it has not collected: they
        run no more, yet `os.kill` still reaches them. */
    var ended: set<int>
    /** PIDs of the processes the monitor started and has not collected. */
    var children: set<int>
    /** Every call made, in order. */
    ghost var calls: seq<OsCall>
    /** What `ps` prints while `live` is the set of processes; `None` when it fails. */
    const listing: (Listing, set<int>) -> Option<string>
    /** Whether the monitor's user may signal a process; `os.kill` raises `PermissionError`
        for one it may not, such as another user's process that `ps -ef` lists. */
    const permitted: int -> bool
    /** Whether a process outlives a signal (within the wait that follows it). */
    const survives: (int, Signal) -> bool

    constructor(processes: set<int>, listing: (Listing, set<int>) -> Option<string>,
                permitted: int -> bool, survives: (int, Signal) -> bool)
      ensures live == processes && ended == {} && children == {} && calls == []
      ensures this.listing == listing && this.permitted == permitted && this.survives == survives
    {
      this.live := processes;
      this.ended := {};
      this.children := {};
      this.calls := [];
      this.listing := listing;
      this.permitted := permitted;
      this.survives := survives;
    }

    /** `subprocess.check_output(["ps", ...]).decode()`, scanned for `pattern`. */
    method Ps(kind: Listing, pattern: string) returns (output: Option<string>)
      modifies this
      ensures output == listing(kind, old(live))
      ensures live == old(live) && ended == old(ended) && children == old(children)
      ensures calls == old(calls) + [Listed(kind, pattern)]
    {
      output := listing(kind, live);
      calls := calls + [Listed(kind, pattern)];
    }

    /** The processes, as a value. */
    function Processes(): Procs
      reads this
    {
      Procs(live, ended, children)
    }

    /** `os.kill(pid, signal)`; `delivered` is false where Python raises `OSError`: no such
        process (`ProcessLookupError`), or one the monitor may not signal (`PermissionError`),
        which is left as it was. A child the signal ends stays reachable until collected. */
    method Kill(pid: int, signal: Signal) returns (delivered: bool)
      modifies this
      ensures delivered <==> (pid in old(live) || pid in old(ended)) && permitted(pid)
      ensures live == if permitted(pid) then AfterSignal(old(live), pid, signal, survives) else old(live)
      ensures ended == Uncollected(old(ended), old(live), live, children) && children == old(children)
      ensures calls == old(calls) + [Signalled(pid, signal)]
    {
      delivered := (pid in live || pid in ended) && permitted(pid);
      if permitted(pid) {
        var after := AfterSignal(live, pid, signal, survives);
        ended := Uncollected(ended, live, after, children);
        live := after;
      }
      calls := calls + [Signalled(pid, signal)];
    }

    /** `subprocess.Popen(...)` starting the child `pid`, which runs. */
    method Spawn(pid: int)
      modifies this
      ensures live == old(live) + {pid} && ended == old(ended) - {pid} && children == old(children) + {pid}
      ensures calls == old(calls) + [Spawned(pid)]
    {
      live, ended, children := live + {pid}, ended - {pid}, children + {pid};
      calls := calls + [Spawned(pid)];
    }

    /** `poll()` finding the child `pid` ended: it collects the child, which no longer exists. */
    method Reap(pid: int)
      modifies this
      ensures live == old(live) - {pid} && ended == old(ended) - {pid} && children == old(children) - {pid}
      ensures calls == old(calls) + [Reaped(pid)]
    {
      live, ended, children := live - {pid}, ended - {pid}, children - {pid};
      calls := calls + [Reaped(pid)];
    }

    /** `time.sleep(seconds)`. */
    method Sleep(seconds: real)
      modifies this
      ensures live == old(live) && ended == old(ended) && children == old(children)
      ensures calls == old(calls) + [Slept(seconds)]
    {
      calls := calls + [Slept(seconds)];
    }

    /** `clean_gstreamer_resources()`: removal of shared-memory segments and semaphores. */
    method PurgeIpc()
      modifies this
      ensures live == old(live) && ended == old(ended) && children == old(children)
      ensures calls == old(calls) + [IpcPurged]
    {
      calls := calls + [IpcPurged];
    }
  }

  // ---------------------------------------------------------------------------
  // PID selection
  // ---------------------------------------------------------------------------

  /** The columns of a listing line: `line.split()` for `ps -ef`, `line.strip().split()` for `ps -eo pid,cmd`. */
  function Columns(kind: Listing, line: string): seq<string> {
    match kind
    case Full => Words(line)
    case PidAndCommand => Words(Strip(line))
  }

  /** Where the PID is: the second column of `ps -ef`, the first of `ps -eo pid,cmd`. */
  function PidColumn(kind: Listing): nat {
    match kind
    case Full => 1
    case PidAndCommand => 0
  }

  /** The PID a listing line contributes: only a line that mentions the pattern and not `grep`,
      that has the PID column, and whose PID column is an integer. */
  function LinePid(kind: Listing, line: string, pattern: string): (r: Option<int>)
    ensures r.Some? ==> Contains(line, pattern) && !Contains(line, "grep")
  {
    if Contains(line, pattern) && !Contains(line, "grep") then
      var parts := Columns(kind, line);
      if |parts| > PidColumn(kind) then IntOf(parts[PidColumn(kind)]) else None
    else None
  }

  /** A `ps -ef` row: the user, the PID, then the rest (parent PID, times, terminal, command). */
  function FullRow(user: string, pid: int, rest: string): string {
    user + " " + IntToString(pid) + " " + rest
  }

  /** A `ps -eo pid,cmd` row: the PID, right-aligned with blanks, then the command. */
  function PidRow(padding: string, pid: int, command: string): string {
    padding + IntToString(pid) + " " + command
  }

  lemma {:induction false} FullRowColumns(user: string, pid: int, rest: string)
    requires user != [] && forall i :: 0 <= i < |user| ==> !IsSpace(user[i])
    ensures |Columns(Full, FullRow(user, pid, rest))| > 1
    ensures Columns(Full, FullRow(user, pid, rest))[1] == IntToString(pid)
  {
    var digits := IntToString(pid);
    NumeralHasNoBlank(pid);
    assert FullRow(user, pid, rest) == user + (" " + (digits + (" " + rest)));
    WordsOfWord(user, " " + (digits + (" " + rest)));
    WordsSkipBlanks(" ", digits + (" " + rest));
    WordsOfWord(digits, " " + rest);
  }

  /** A `ps -ef` row that mentions the pattern after the PID, and nowhere `grep`, yields its PID. */
  lemma {:induction false} FullRowSelected(user: string, pid: int, rest: string, pattern: string)
    requires user != [] && forall i :: 0 <= i < |user| ==> !IsSpace(user[i])
    requires Contains(rest, pattern) && !Contains(FullRow(user, pid, rest), "grep")
    ensures LinePid(Full, FullRow(user, pid, rest), pattern) == Some(pid)
  {
    FullRowColumns(user, pid, rest);
    var prefix := user + " " + IntToString(pid) + " ";
    ContainsWithin(prefix, rest, [], pattern);
    assert prefix + rest + [] == FullRow(user, pid, rest);
    PidFromColumn(Full, FullRow(user, pid, rest), pattern, pid);
  }

  lemma {:induction false} PidRowStripped(padding: string, pid: int, command: string)
    requires forall i :: 0 <= i < |padding| ==> padding[i] == ' '
    ensures var stripped := Strip(PidRow(padding, pid, command));
      |stripped| >= |IntToString(pid)| && stripped[..|IntToString(pid)|] == IntToString(pid) &&
      (|stripped| == |IntToString(pid)| || stripped[|IntToString(pid)|] == ' ')
  {
    var digits := IntToString(pid);
    PaddingStripped(padding, pid, command);
    NumeralCharNotSpace(digits[|digits| - 1]);
    BlankTailKept(digits, " " + command);
  }

  /** `lstrip()` of a `ps -eo pid,cmd` row removes exactly the padding. */
  lemma PaddingStripped(padding: string, pid: int, command: string)
    requires forall i :: 0 <= i < |padding| ==> padding[i] == ' '
    ensures Strip(PidRow(padding, pid, command)) == TrimRight(IntToString(pid) + (" " + command))
  {
    var digits := IntToString(pid);
    var body := digits + (" " + command);
    assert PidRow(padding, pid, command) == padding + body;
    assert body[0] == digits[0];
    NumeralCharNotSpace(digits[0]);
    assert forall i :: 0 <= i < |padding| ==> IsSpace(padding[i]);
    TrimLeftBlanks(padding, body);
  }

  /** `rstrip()` of a word followed by a text that starts with a blank keeps the word whole. */
  lemma {:induction false} BlankTailKept(word: string, tail: string)
    requires word != [] && !IsSpace(word[|word| - 1])
    requires tail != [] && tail[0] == ' '
    ensures var r := TrimRight(word + tail);
      |r| >= |word| && r[..|word|] == word && (|r| == |word| || r[|word|] == ' ')
  {
    var body := word + tail;
    var r := TrimRight(body);
    assert body[|word| - 1] == word[|word| - 1];
    assert |r| >= |word|;
    assert r[..|word|] == body[..|word|] == word;
    if |r| > |word| {
      assert r[|word|] == body[|word|] == tail[0];
    }
  }

  lemma {:induction false} PidRowColumns(padding: string, pid: int, command: string)
    requires forall i :: 0 <= i < |padding| ==> padding[i] == ' '
    ensures |Columns(PidAndCommand, PidRow(padding, pid, command))| > 0
    ensures Columns(PidAndCommand, PidRow(padding, pid, command))[0] == IntToString(pid)
  {
    var digits := IntToString(pid);
    var stripped := Strip(PidRow(padding, pid, command));
    PidRowStripped(padding, pid, command);
    NumeralHasNoBlank(pid);
    var tail := stripped[|digits|..];
    assert stripped == digits + tail;
    WordsOfWord(digits, tail);
  }

  /** A `ps -eo pid,cmd` row whose command mentions the pattern, and nowhere `grep`, yields its PID. */
  lemma {:induction false} PidRowSelected(padding: string, pid: int, command: string, pattern: string)
    requires forall i :: 0 <= i < |padding| ==> padding[i] == ' '
    requires Contains(command, pattern) && !Contains(PidRow(padding, pid, command), "grep")
    ensures LinePid(PidAndCommand, PidRow(padding, pid, command), pattern) == Some(pid)
  {
    PidRowColumns(padding, pid, command);
    var prefix := padding + IntToString(pid) + " ";
    ContainsWithin(prefix, command, [], pattern);
    assert prefix + command + [] == PidRow(padding, pid, command);
    PidFromColumn(PidAndCommand, PidRow(padding, pid, command), pattern, pid);
  }

  /** A line that qualifies and holds the text of `pid` in its PID column yields `pid`. */
  lemma PidFromColumn(kind: Listing, line: string, pattern: string, pid: int)
    requires Contains(line, pattern) && !Contains(line, "grep")
    requires |Columns(kind, line)| > PidColumn(kind) && Columns(kind, line)[PidColumn(kind)] == IntToString(pid)
    ensures LinePid(kind, line, pattern) == Some(pid)
  {
    IntRoundTrip(pid);
  }

  /** The verdict of each line of a listing, in order. */
  function Picks(kind: Listing, lines: seq<string>, pattern: string): (r: seq<Option<int>>)
    ensures |r| == |lines|
    ensures forall k :: 0 <= k < |lines| ==> r[k] == LinePid(kind, lines[k], pattern)
  {
    seq(|lines|, k requires 0 <= k < |lines| => LinePid(kind, lines[k], pattern))
  }

  /** The values present in a sequence of options, in order. */
  function Somes(xs: seq<Option<int>>): (r: seq<int>)
    ensures |r| <= |xs|
    decreases |xs|
  {
    if xs == [] then []
    else
      var init := Somes(xs[..|xs| - 1]);
      match xs[|xs| - 1]
      case Some(p) => init + [p]
      case None => init
  }

  lemma {:induction false} SomesExactly(xs: seq<Option<int>>, p: int)
    ensures p in Somes(xs) <==> Some(p) in xs
    decreases |xs|
  {
    if xs != [] {
      var init := xs[..|xs| - 1];
      SomesExactly(init, p);
      assert xs == init + [xs[|xs| - 1]];
    }
  }

  /** One more option adds its value, if any, after the values before it. */
  lemma SomesSnoc(xs: seq<Option<int>>, i: int)
    requires 0 <= i < |xs|
    ensures Somes(xs[..i + 1]) == Somes(xs[..i]) + (if xs[i].Some? then [xs[i].value] else [])
  {
    assert xs[..i + 1][..i] == xs[..i];
  }

  /** The PIDs a scan of `lines` collects, in listing order. */
  function SelectedPids(kind: Listing, lines: seq<string>, pattern: string): (r: seq<int>)
    ensures |r| <= |lines|
  {
    Somes(Picks(kind, lines, pattern))
  }

  /** Exactly the PIDs of qualifying lines are selected. */
  lemma {:induction false} SelectedPidsExactly(kind: Listing, lines: seq<string>, pattern: string, p: int)
    ensures p in SelectedPids(kind, lines, pattern) <==>
      exists k :: 0 <= k < |lines| && LinePid(kind, lines[k], pattern) == Some(p)
  {
    var picks := Picks(kind, lines, pattern);
    SomesExactly(picks, p);
    if Some(p) in picks {
      var k :| 0 <= k < |picks| && picks[k] == Some(p);
      assert LinePid(kind, lines[k], pattern) == Some(p);
    } else {
      forall k | 0 <= k < |lines| ensures LinePid(kind, lines[k], pattern) != Some(p) {
        assert picks[k] in picks;
      }
    }
  }

  /** The PID-collecting loop over `output.split('\n')`. */
  method ScanPids(kind: Listing, output: string, pattern: string) returns (pids: seq<int>)
    ensures pids == SelectedPids(kind, SplitOn(output, '\n'), pattern)
  {
    var lines := SplitOn(output, '\n');
    ghost var picks := Picks(kind, lines, pattern);
    pids := [];
    for i := 0 to |lines|
      invariant pids == Somes(picks[..i])
    {
      SomesSnoc(picks, i);
      match LinePid(kind, lines[i], pattern)
      case Some(p) =>
        pids := pids + [p];
      case None =>
    }
    assert picks[..|lines|] == picks;
  }

  // ---------------------------------------------------------------------------
  // Killing the selected PIDs
  // ---------------------------------------------------------------------------

  /** Whether `os.kill` reaches `pid`: it runs, or it is an ended child not yet collected. */
  predicate Reachable(pid: int, live: set<int>, ended: set<int>) {
    pid in live || pid in ended
  }

  /** Whether a probe still finds `pid` after `signal` reached it: it outlived the signal,
      or it is one of the monitor's children, whose PID stays taken until it is collected. */
  predicate Lingers(pid: int, ended: set<int>, children: set<int>, survives: (int, Signal) -> bool, signal: Signal) {
    pid in ended || pid in children || survives(pid, signal)
  }

  /** The calls made for one selected PID: SIGTERM; if it was delivered, half a second's wait
      and a probe; if the probe still finds the process, SIGKILL. */
  function PidCalls(pid: int, live: set<int>, ended: set<int>, children: set<int>,
                    permitted: int -> bool, survives: (int, Signal) -> bool): (r: seq<OsCall>)
    ensures forall k :: 0 <= k < |r| ==> !r[k].Listed?
  {
    if !Reachable(pid, live, ended) || !permitted(pid) then [Signalled(pid, SigTerm)]
    else
      [Signalled(pid, SigTerm), Slept(0.5), Signalled(pid, Probe)] +
      (if Lingers(pid, ended, children, survives, SigTerm) then [Signalled(pid, SigKill)] else [])
  }

  /** SIGTERM comes first; SIGKILL is sent exactly when SIGTERM reached the process and a
      probe still found it; every signal goes to the selected PID. */
  lemma PidCallsEscalate(pid: int, live: set<int>, ended: set<int>, children: set<int>,
                         permitted: int -> bool, survives: (int, Signal) -> bool)
    ensures var c := PidCalls(pid, live, ended, children, permitted, survives);
      c[0] == Signalled(pid, SigTerm) &&
      (Signalled(pid, SigKill) in c <==>
         Reachable(pid, live, ended) && permitted(pid) && Lingers(pid, ended, children, survives, SigTerm)) &&
      (forall k :: 0 <= k < |c| && c[k].Signalled? ==> c[k].pid == pid)
  {
  }

  /** The calls made for a list of PIDs, each seeing the processes the earlier ones left. */
  function KillAllCalls(pids: seq<int>, live: set<int>, ended: set<int>, children: set<int>,
                        permitted: int -> bool, survives: (int, Signal) -> bool): (r: seq<OsCall>)
    ensures forall k :: 0 <= k < |r| ==> !r[k].Listed?
    decreases |pids|
  {
    if pids == [] then []
    else
      var init := pids[..|pids| - 1];
      var rest := live - Killable(init, permitted);
      KillAllCalls(init, live, ended, children, permitted, survives) +
      PidCalls(pids[|pids| - 1], rest, Uncollected(ended, live, rest, children), children, permitted, survives)
  }

  /** One more PID: its calls, made seeing what the earlier PIDs left, extend theirs. */
  lemma KillAllSnoc(c0: seq<OsCall>, c1: seq<OsCall>, c2: seq<OsCall>, pids: seq<int>, i: nat,
                    live: set<int>, ended: set<int>, children: set<int>,
                    permitted: int -> bool, survives: (int, Signal) -> bool)
    requires i < |pids|
    requires c1 == c0 + KillAllCalls(pids[..i], live, ended, children, permitted, survives)
    requires var rest := live - Killable(pids[..i], permitted);
      c2 == c1 + PidCalls(pids[i], rest, Uncollected(ended, live, rest, children), children, permitted, survives)
    ensures c2 == c0 + KillAllCalls(pids[..i + 1], live, ended, children, permitted, survives)
  {
    assert pids[..i + 1] == pids[..i] + [pids[i]];
    KillAllLast(pids[..i], pids[i], live, ended, children, permitted, survives);
  }

  /** The calls for `init + [last]` are those for `init`, then those for `last`. */
  lemma KillAllLast(init: seq<int>, last: int, live: set<int>, ended: set<int>, children: set<int>,
                    permitted: int -> bool, survives: (int, Signal) -> bool)
    ensures var rest := live - Killable(init, permitted);
      KillAllCalls(init + [last], live, ended, children, permitted, survives) ==
      KillAllCalls(init, live, ended, children, permitted, survives) +
      PidCalls(last, rest, Uncollected(ended, live, rest, children), children, permitted, survives)
  {
    assert (init + [last])[..|init|] == init;
  }

  /** One more PID: the killable ones gain it if the monitor may signal it. */
  lemma KillableSnoc(pids: seq<int>, i: nat, permitted: int -> bool)
    requires i < |pids|
    ensures Killable(pids[..i + 1], permitted) == Killable(pids[..i], permitted) + IfPermitted(pids[i], permitted)
  {
    assert pids[..i + 1] == pids[..i] + [pids[i]];
  }

  /** One selected PID: the signal-and-check step of both sweeps. Afterwards the process no
      longer runs if the monitor may signal it, and is untouched otherwise. */
  method TerminatePid(host: Host, pid: int)
    modifies host
    ensures host.live == old(host.live) - IfPermitted(pid, host.permitted)
    ensures host.ended == Uncollected(old(host.ended), old(host.live), host.live, host.children)
    ensures host.children == old(host.children)
    ensures host.calls == old(host.calls) +
      PidCalls(pid, old(host.live), old(host.ended), host.children, host.permitted, host.survives)
  {
    var delivered := host.Kill(pid, SigTerm);
    if delivered {
      host.Sleep(0.5);
      var present := host.Kill(pid, Probe);
      if present {
        var _ := host.Kill(pid, SigKill);
      }
    }
  }

  /** The kill loop of both sweeps: afterwards every selected process the monitor may signal
      is gone, and no other process is touched. */
  method KillAll(host: Host, pids: seq<int>)
    modifies host
    ensures host.live == old(host.live) - Killable(pids, host.permitted)
    ensures host.ended == Uncollected(old(host.ended), old(host.live), host.live, host.children)
    ensures host.children == old(host.children)
    ensures host.calls == old(host.calls) +
      KillAllCalls(pids, old(host.live), old(host.ended), host.children, host.permitted, host.survives)
  {
    for i := 0 to |pids|
      invariant host.live == old(host.live) - Killable(pids[..i], host.permitted)
      invariant host.ended == Uncollected(old(host.ended), old(host.live), host.live, host.children)
      invariant host.children == old(host.children)
      invariant host.calls == old(host.calls) +
        KillAllCalls(pids[..i], old(host.live), old(host.ended), host.children, host.permitted, host.survives)
    {
      ghost var prev, before := host.live, host.calls;
      KillableSnoc(pids, i, host.permitted);
      TerminatePid(host, pids[i]);
      KillAllSnoc(old(host.calls), before, host.calls, pids, i, old(host.live), old(host.ended), host.children,
                  host.permitted, host.survives);
      UncollectedTrans(old(host.ended), old(host.live), prev, host.live, host.children);
    }
    assert pids[..|pids|] == pids;
  }

  /** What a sweep selects from a listing, or nothing when `ps` failed. */
  function Selection(kind: Listing, output: Option<string>, pattern: string): seq<int> {
    match output
    case None => []
    case Some(text) => SelectedPids(kind, SplitOn(text, '\n'), pattern)
  }

  /** `find_and_kill_processes_by_name` (listing `Full`) and
      `find_and_kill_processes_by_partial_command` (listing `PidAndCommand`): the number of
      PIDs selected, whatever became of them, and 0 when the listing failed. */
  method FindAndKill(host: Host, kind: Listing, pattern: string) returns (count: int)
    modifies host
    ensures var pids := Selection(kind, host.listing(kind, old(host.live)), pattern);
      count == |pids| &&
      host.live == old(host.live) - Killable(pids, host.permitted) &&
      host.calls == old(host.calls) + [Listed(kind, pattern)] +
                    KillAllCalls(pids, old(host.live), old(host.ended), host.children, host.permitted, host.survives)
    ensures host.ended == Uncollected(old(host.ended), old(host.live), host.live, host.children)
    ensures host.children == old(host.children)
    ensures host.live <= old(host.live)
    ensures |host.calls| > |old(host.calls)| && host.calls[..|old(host.calls)|] == old(host.calls)
    ensures Listings(host.calls[|old(host.calls)|..]) == [Listed(kind, pattern)]
  {
    ghost var before := host.calls;
    assert Listings([Listed(kind, pattern)]) == [Listed(kind, pattern)] by {
      assert [Listed(kind, pattern)][1..] == [];
    }
    var output := host.Ps(kind, pattern);
    match output {
    case None =>
      count := 0;
      DropPrefix(before, [Listed(kind, pattern)]);
    case Some(text) =>
      var pids := ScanPids(kind, text, pattern);
      KillAll(host, pids);
      count := |pids|;
      ghost var killed := KillAllCalls(pids, old(host.live), old(host.ended), host.children, host.permitted, host.survives);
      NoListings(killed);
      ListingsConcat([Listed(kind, pattern)], killed);
      DropPrefix(before, [Listed(kind, pattern)] + killed);
    }
  }

  // ---------------------------------------------------------------------------
  // The sweeps of terminate_detection
  // ---------------------------------------------------------------------------

  const ProcessNames: seq<string> := ["detection.py", "GStreamerDetectionApp", "Hailo Detection App"]
  const LauncherName: string := "gst-launch"
  const PipelineElements: seq<string> := ["hailonet", "hailotracker", "hailofilter", "hailooverlay", "autovideosink"]

  /** The listings a trace asks for, in order. */
  function Listings(calls: seq<OsCall>): (r: seq<OsCall>)
    ensures forall k :: 0 <= k < |r| ==> r[k].Listed?
    decreases |calls|
  {
    if calls == [] then []
    else (if calls[0].Listed? then [calls[0]] else []) + Listings(calls[1..])
  }

  lemma {:induction false} ListingsConcat(a: seq<OsCall>, b: seq<OsCall>)
    ensures Listings(a + b) == Listings(a) + Listings(b)
    decreases |a|
  {
    if a == [] {
      assert a + b == b;
    } else {
      ListingsConcat(a[1..], b);
      assert (a + b)[1..] == a[1..] + b;
    }
  }

  /** A trace that lists nothing has no listings. */
  lemma {:induction false} NoListings(calls: seq<OsCall>)
    requires forall k :: 0 <= k < |calls| ==> !calls[k].Listed?
    ensures Listings(calls) == []
    decreases |calls|
  {
    if calls != [] {
      NoListings(calls[1..]);
    }
  }

  /** `c1` is `c0` extended by calls that list nothing. */
  predicate Quiet(c0: seq<OsCall>, c1: seq<OsCall>) {
    |c0| <= |c1| && c1[..|c0|] == c0 && forall k :: |c0| <= k < |c1| ==> !c1[k].Listed?
  }

  /** One more call that lists nothing keeps a stretch quiet. */
  lemma QuietSnoc(c0: seq<OsCall>, c1: seq<OsCall>, call: OsCall)
    requires Quiet(c0, c1) && !call.Listed?
    ensures Quiet(c0, c1 + [call])
  {
    assert (c1 + [call])[..|c0|] == c1[..|c0|];
  }

  /** Two quiet stretches in a row make one. */
  lemma QuietTrans(c0: seq<OsCall>, c1: seq<OsCall>, c2: seq<OsCall>)
    requires Quiet(c0, c1) && Quiet(c1, c2)
    ensures Quiet(c0, c2)
  {
    assert c2[..|c0|] == c2[..|c1|][..|c0|];
  }

  /** Calls that list nothing, made between `c0` and `c1`, leave the listings made since
      `c0` those made since `c1`. */
  lemma {:induction false} QuietStretch(c0: seq<OsCall>, c1: seq<OsCall>, c2: seq<OsCall>)
    requires |c0| <= |c1| <= |c2| && c1[..|c0|] == c0 && c2[..|c1|] == c1
    requires forall k :: |c0| <= k < |c1| ==> !c1[k].Listed?
    ensures Listings(c2[|c0|..]) == Listings(c2[|c1|..])
  {
    assert c2[|c0|..] == c1[|c0|..] + c2[|c1|..];
    ListingsConcat(c1[|c0|..], c2[|c1|..]);
    NoListings(c1[|c0|..]);
  }

  /** Quiet calls `e` made right after `c0` and followed by more: the listings made since
      `c0` are those made after `e`, and `e` opens what was added. */
  lemma {:induction false} QuietPrefix(c0: seq<OsCall>, e: seq<OsCall>, c2: seq<OsCall>)
    requires forall k :: 0 <= k < |e| ==> !e[k].Listed?
    requires |c2| >= |c0| + |e| && c2[..|c0| + |e|] == c0 + e
    ensures c2[..|c0|] == c0 && e <= c2[|c0|..]
    ensures Listings(c2[|c0|..]) == Listings(c2[|c0| + |e|..])
  {
    var c1 := c0 + e;
    DropPrefix(c0, e);
    assert c2[..|c0|] == c2[..|c1|][..|c0|];
    assert c2[|c0|..][..|e|] == c2[..|c1|][|c0|..];
    QuietStretch(c0, c1, c2);
  }

  /** A trace extended by `b` has `b` after its old length. */
  lemma DropPrefix(a: seq<OsCall>, b: seq<OsCall>)
    ensures (a + b)[|a|..] == b && (a + b)[..|a|] == a
  {
  }

  /** A trace extended twice: what was added since the first is the two additions. */
  lemma Extends(c0: seq<OsCall>, c1: seq<OsCall>, c2: seq<OsCall>)
    requires |c0| <= |c1| <= |c2| && c1[..|c0|] == c0 && c2[..|c1|] == c1
    ensures c2[..|c0|] == c0 && c2[|c0|..] == c1[|c0|..] + c2[|c1|..]
  {
    assert c2[..|c0|] == c2[..|c1|][..|c0|];
  }

  /** One scan of each pattern. */
  function Scans(kind: Listing, patterns: seq<string>): (r: seq<OsCall>)
    ensures |r| == |patterns|
    ensures forall k :: 0 <= k < |r| ==> r[k] == Listed(kind, patterns[k])
  {
    if patterns == [] then [] else [Listed(kind, patterns[0])] + Scans(kind, patterns[1..])
  }

  /** The processes left after scanning for each pattern in turn, each scan listing the
      processes the earlier ones left and removing those it selects that the monitor may signal. */
  function SweepLive(live: set<int>, kind: Listing, patterns: seq<string>,
                     listing: (Listing, set<int>) -> Option<string>, permitted: int -> bool): (r: set<int>)
    ensures r <= live
    decreases |patterns|
  {
    if patterns == [] then live
    else
      var before := SweepLive(live, kind, patterns[..|patterns| - 1], listing, permitted);
      before - Killable(Selection(kind, listing(kind, before), patterns[|patterns| - 1]), permitted)
  }

  /** The PIDs the scan for `patterns[k]` selects, from the listing of what the earlier scans left. */
  function StageSelection(live: set<int>, kind: Listing, patterns: seq<string>,
                          listing: (Listing, set<int>) -> Option<string>, permitted: int -> bool,
                          k: nat): seq<int>
    requires k < |patterns|
  {
    Selection(kind, listing(kind, SweepLive(live, kind, patterns[..k], listing, permitted)), patterns[k])
  }

  /** A process outlives the scans exactly when it was there before them and either the
      monitor may not signal it or no scan selected it. */
  lemma {:induction false} SweepLiveExactly(live: set<int>, kind: Listing, patterns: seq<string>,
                                            listing: (Listing, set<int>) -> Option<string>,
                                            permitted: int -> bool, p: int)
    ensures p in SweepLive(live, kind, patterns, listing, permitted) <==>
      p in live && (!permitted(p) ||
        forall k :: 0 <= k < |patterns| ==> p !in StageSelection(live, kind, patterns, listing, permitted, k))
    decreases |patterns|
  {
    if patterns != [] {
      var n := |patterns| - 1;
      var init := patterns[..n];
      SweepLiveExactly(live, kind, init, listing, permitted, p);
      StagesOfPrefix(live, kind, patterns, listing, permitted);
      var last := StageSelection(live, kind, patterns, listing, permitted, n);
      SweepLiveSnoc(live, kind, patterns, listing, permitted, n);
      assert patterns[..n + 1] == patterns;
      assert p in SweepLive(live, kind, patterns, listing, permitted) <==>
             p in SweepLive(live, kind, init, listing, permitted) && !(p in last && permitted(p));
      var spared := forall k :: 0 <= k < |patterns| ==>
        p !in StageSelection(live, kind, patterns, listing, permitted, k);
      var sparedBefore := forall k :: 0 <= k < n ==>
        p !in StageSelection(live, kind, init, listing, permitted, k);
      if spared {
        forall k | 0 <= k < n ensures p !in StageSelection(live, kind, init, listing, permitted, k) {
          assert p !in StageSelection(live, kind, patterns, listing, permitted, k);
        }
      }
      if sparedBefore && p !in last {
        forall k | 0 <= k < |patterns| ensures p !in StageSelection(live, kind, patterns, listing, permitted, k) {
          if k < n {
            assert p !in StageSelection(live, kind, init, listing, permitted, k);
          }
        }
      }
    }
  }

  /** The scans of a prefix of the patterns are the first scans of all of them. */
  lemma StagesOfPrefix(live: set<int>, kind: Listing, patterns: seq<string>,
                       listing: (Listing, set<int>) -> Option<string>, permitted: int -> bool)
    requires patterns != []
    ensures forall k :: 0 <= k < |patterns| - 1 ==>
      StageSelection(live, kind, patterns[..|patterns| - 1], listing, permitted, k) ==
      StageSelection(live, kind, patterns, listing, permitted, k)
  {
    var init := patterns[..|patterns| - 1];
    forall k | 0 <= k < |init|
      ensures StageSelection(live, kind, init, listing, permitted, k) ==
              StageSelection(live, kind, patterns, listing, permitted, k)
    {
      assert init[..k] == patterns[..k];
    }
  }

  /** A scan that removes what it selects from what the earlier scans left extends the sweep,
      and the children it ends join those the earlier scans ended. */
  lemma SweepStep(live: set<int>, ended: set<int>, children: set<int>, prev: set<int>, prevEnded: set<int>,
                  next: set<int>, nextEnded: set<int>, kind: Listing, patterns: seq<string>,
                  listing: (Listing, set<int>) -> Option<string>, permitted: int -> bool, i: nat)
    requires i < |patterns|
    requires prev == SweepLive(live, kind, patterns[..i], listing, permitted)
    requires prevEnded == Uncollected(ended, live, prev, children)
    requires next == prev - Killable(Selection(kind, listing(kind, prev), patterns[i]), permitted)
    requires nextEnded == Uncollected(prevEnded, prev, next, children)
    ensures next == SweepLive(live, kind, patterns[..i + 1], listing, permitted)
    ensures nextEnded == Uncollected(ended, live, next, children)
  {
    SweepLiveSnoc(live, kind, patterns, listing, permitted, i);
    UncollectedTrans(ended, live, prev, next, children);
  }

  /** One more scan: it removes what it selects from what the earlier scans left. */
  lemma SweepLiveSnoc(live: set<int>, kind: Listing, patterns: seq<string>,
                      listing: (Listing, set<int>) -> Option<string>, permitted: int -> bool, i: nat)
    requires i < |patterns|
    ensures SweepLive(live, kind, patterns[..i + 1], listing, permitted) ==
      SweepLive(live, kind, patterns[..i], listing, permitted) -
      Killable(StageSelection(live, kind, patterns, listing, permitted, i), permitted)
  {
    assert patterns[..i + 1][..i] == patterns[..i];
  }

  /** `find_and_kill_...` for each pattern in turn: one listing per pattern, in order, and
      the processes left are those the successive scans did not remove. */
  method SweepAll(host: Host, kind: Listing, patterns: seq<string>)
    modifies host
    ensures host.live == SweepLive(old(host.live), kind, patterns, host.listing, host.permitted)
    ensures host.ended == Uncollected(old(host.ended), old(host.live), host.live, host.children)
    ensures host.children == old(host.children)
    ensures |host.calls| >= |old(host.calls)| && host.calls[..|old(host.calls)|] == old(host.calls)
    ensures Listings(host.calls[|old(host.calls)|..]) == Scans(kind, patterns)
  {
    ghost var start := host.calls;
    for i := 0 to |patterns|
      invariant host.live == SweepLive(old(host.live), kind, patterns[..i], host.listing, host.permitted)
      invariant host.ended == Uncollected(old(host.ended), old(host.live), host.live, host.children)
      invariant host.children == old(host.children)
      invariant |host.calls| >= |start| && host.calls[..|start|] == start
      invariant Listings(host.calls[|start|..]) == Scans(kind, patterns[..i])
    {
      ghost var before, prev, prevEnded := host.calls, host.live, host.ended;
      var _ := FindAndKill(host, kind, patterns[i]);
      ListingsStep(start, before, host.calls, kind, patterns, i);
      SweepStep(old(host.live), old(host.ended), host.children, prev, prevEnded, host.live, host.ended,
                kind, patterns, host.listing, host.permitted, i);
    }
    assert patterns[..|patterns|] == patterns;
  }

  lemma {:induction false} ListingsStep(start: seq<OsCall>, before: seq<OsCall>, after: seq<OsCall>,
                                        kind: Listing, patterns: seq<string>, i: nat)
    requires i < |patterns|
    requires |before| >= |start| && before[..|start|] == start
    requires |after| >= |before| && after[..|before|] == before
    requires Listings(before[|start|..]) == Scans(kind, patterns[..i])
    requires Listings(after[|before|..]) == [Listed(kind, patterns[i])]
    ensures after[..|start|] == start
    ensures Listings(after[|start|..]) == Scans(kind, patterns[..i + 1])
  {
    assert after[|start|..] == before[|start|..] + after[|before|..];
    ListingsConcat(before[|start|..], after[|before|..]);
    ScansSnoc(kind, patterns, i);
  }

  lemma {:induction false} ScansSnoc(kind: Listing, patterns: seq<string>, i: nat)
    requires i < |patterns|
    ensures Scans(kind, patterns[..i + 1]) == Scans(kind, patterns[..i]) + [Listed(kind, patterns[i])]
  {
    var a, b := Scans(kind, patterns[..i + 1]), Scans(kind, patterns[..i]) + [Listed(kind, patterns[i])];
    assert |a| == |b|;
    forall k | 0 <= k < |a| ensures a[k] == b[k] {
    }
  }

  /** The scans `terminate_detection` makes, in order. */
  function SweepScans(): seq<OsCall> {
    [Listed(Full, "detection.py"), Listed(Full, "GStreamerDetectionApp"), Listed(Full, "Hailo Detection App"),
     Listed(Full, "gst-launch"), Listed(PidAndCommand, "hailonet"), Listed(PidAndCommand, "hailotracker"),
     Listed(PidAndCommand, "hailofilter"), Listed(PidAndCommand, "hailooverlay"), Listed(PidAndCommand, "autovideosink")]
  }

  /** They are the scans of the first sweep followed by those of the second. */
  lemma SweepScansSplit()
    ensures Scans(Full, ProcessNames + [LauncherName]) + Scans(PidAndCommand, PipelineElements) == SweepScans()
  {
    var named, elements := Scans(Full, ProcessNames + [LauncherName]), Scans(PidAndCommand, PipelineElements);
    assert named == SweepScans()[..4];
    assert elements == SweepScans()[4..];
  }

  /** The processes left by both sweeps of `terminate_detection`. */
  function SweepsLive(live: set<int>, listing: (Listing, set<int>) -> Option<string>,
                      permitted: int -> bool): (r: set<int>)
    ensures r <= live
  {
    var named := SweepLive(live, Full, ProcessNames + [LauncherName], listing, permitted);
    SweepLive(named, PidAndCommand, PipelineElements, listing, permitted)
  }

  /** The sweep part of `terminate_detection`: the process names, the `gst-launch` launcher,
      the pipeline elements by partial command, then a tenth of a second's wait. */
  method Sweep(host: Host)
    modifies host
    ensures host.live == SweepsLive(old(host.live), host.listing, host.permitted)
    ensures host.ended == Uncollected(old(host.ended), old(host.live), host.live, host.children)
    ensures host.children == old(host.children)
    ensures |host.calls| > |old(host.calls)| && host.calls[..|old(host.calls)|] == old(host.calls)
    ensures Listings(host.calls[|old(host.calls)|..]) == SweepScans()
    ensures host.calls[|host.calls| - 1] == Slept(0.1)
  {
    ghost var c0 := host.calls;
    SweepAll(host, Full, ProcessNames + [LauncherName]);
    ghost var c1, l1 := host.calls, host.live;
    SweepAll(host, PidAndCommand, PipelineElements);
    UncollectedTrans(old(host.ended), old(host.live), l1, host.live, host.children);
    ghost var c2 := host.calls;
    host.Sleep(0.1);
    SweepTrace(c0, c1, c2, host.calls);
  }

  /** The trace of `Sweep`: the two sweeps' listings, then the wait. */
  lemma SweepTrace(c0: seq<OsCall>, c1: seq<OsCall>, c2: seq<OsCall>, c3: seq<OsCall>)
    requires |c1| >= |c0| && c1[..|c0|] == c0 && Listings(c1[|c0|..]) == Scans(Full, ProcessNames + [LauncherName])
    requires |c2| >= |c1| && c2[..|c1|] == c1 && Listings(c2[|c1|..]) == Scans(PidAndCommand, PipelineElements)
    requires c3 == c2 + [Slept(0.1)]
    ensures |c3| > |c0| && c3[..|c0|] == c0
    ensures Listings(c3[|c0|..]) == SweepScans()
    ensures c3[|c3| - 1] == Slept(0.1)
  {
    Extends(c0, c1, c2);
    ListingsConcat(c1[|c0|..], c2[|c1|..]);
    Extends(c0, c2, c3);
    DropPrefix(c2, [Slept(0.1)]);
    ListingsConcat(c2[|c0|..], [Slept(0.1)]);
    NoListings([Slept(0.1)]);
    SweepScansSplit();
  }

  // ---------------------------------------------------------------------------
  // Escalating shutdown of the detection child
  // ---------------------------------------------------------------------------

  /** The three stages of stopping the child `pid`, each a signal and, but for the last, a
      wait ending with a probe. */
  function Interrupt(pid: int): seq<OsCall> { [Signalled(pid, SigInt), Slept(2.0), Signalled(pid, Probe)] }
  function Terminate(pid: int): seq<OsCall> { [Signalled(pid, SigTerm), Slept(1.0), Signalled(pid, Probe)] }
  function ForceKill(pid: int): seq<OsCall> { [Signalled(pid, SigKill)] }

  /** The calls made to stop the child `pid`: SIGINT and a 2 s wait; if a probe still finds
      it, SIGTERM and a 1 s wait; if a probe still finds it, SIGKILL. */
  function EscalationCalls(pid: int, live: set<int>, ended: set<int>, children: set<int>,
                           permitted: int -> bool, survives: (int, Signal) -> bool): seq<OsCall> {
    if !Reachable(pid, live, ended) || !permitted(pid) then [Signalled(pid, SigInt)]
    else if !Lingers(pid, ended, children, survives, SigInt) then Interrupt(pid)
    else if !Lingers(pid, ended, children, survives, SigTerm) then Interrupt(pid) + Terminate(pid)
    else Interrupt(pid) + Terminate(pid) + ForceKill(pid)
  }

  /** The seconds spent waiting in a trace. */
  function Waited(calls: seq<OsCall>): real
    decreases |calls|
  {
    if calls == [] then 0.0
    else (if calls[0].Slept? then calls[0].seconds else 0.0) + Waited(calls[1..])
  }

  lemma {:induction false} WaitedConcat(a: seq<OsCall>, b: seq<OsCall>)
    ensures Waited(a + b) == Waited(a) + Waited(b)
    decreases |a|
  {
    if a == [] {
      assert a + b == b;
    } else {
      WaitedConcat(a[1..], b);
      assert (a + b)[1..] == a[1..] + b;
    }
  }

  lemma {:induction false} StageWaits(pid: int)
    ensures Waited(Interrupt(pid)) == 2.0 && Waited(Terminate(pid)) == 1.0 && Waited(ForceKill(pid)) == 0.0
  {
    var i, t, f := Interrupt(pid), Terminate(pid), ForceKill(pid);
    assert i[1..][1..][1..] == [] && t[1..][1..][1..] == [] && f[1..] == [];
    assert Waited(i[1..][1..]) == 0.0 && Waited(t[1..][1..]) == 0.0;
    assert Waited(i[1..]) == 2.0 && Waited(t[1..]) == 1.0;
  }

  /** SIGINT always comes first; SIGTERM is sent exactly when SIGINT reached the child and a
      probe still found it, SIGKILL exactly when a probe also found it after SIGTERM; every
      signal goes to the child; at most 3 s pass. */
  lemma {:induction false} EscalationOrder(pid: int, live: set<int>, ended: set<int>, children: set<int>,
                                           permitted: int -> bool, survives: (int, Signal) -> bool)
    ensures var c := EscalationCalls(pid, live, ended, children, permitted, survives);
      c[0] == Signalled(pid, SigInt) &&
      (Signalled(pid, SigTerm) in c <==>
         Reachable(pid, live, ended) && permitted(pid) && Lingers(pid, ended, children, survives, SigInt)) &&
      (Signalled(pid, SigKill) in c <==>
         Reachable(pid, live, ended) && permitted(pid) && Lingers(pid, ended, children, survives, SigInt) &&
         Lingers(pid, ended, children, survives, SigTerm)) &&
      (forall k :: 0 <= k < |c| && c[k].Signalled? ==> c[k].pid == pid) &&
      Waited(c) <= 3.0
  {
    StageWaits(pid);
    WaitedConcat(Interrupt(pid), Terminate(pid));
    WaitedConcat(Interrupt(pid) + Terminate(pid), ForceKill(pid));
    var c := EscalationCalls(pid, live, ended, children, permitted, survives);
    if !Reachable(pid, live, ended) || !permitted(pid) {
      assert c[1..] == [];
    }
  }

  /** The escalation lists no processes. */
  lemma EscalationQuiet(pid: int, live: set<int>, ended: set<int>, children: set<int>,
                        permitted: int -> bool, survives: (int, Signal) -> bool)
    ensures var c := EscalationCalls(pid, live, ended, children, permitted, survives);
      forall k :: 0 <= k < |c| ==> !c[k].Listed?
  {
  }

  /** A child the monitor may signal and that a signal ends stays reachable until collected,
      so each probe finds it: the escalation runs all three stages, down to SIGKILL. */
  lemma ChildEscalation(pid: int, live: set<int>, ended: set<int>, children: set<int>,
                        permitted: int -> bool, survives: (int, Signal) -> bool)
    requires pid in children && Reachable(pid, live, ended) && permitted(pid)
    ensures EscalationCalls(pid, live, ended, children, permitted, survives) ==
      Interrupt(pid) + Terminate(pid) + ForceKill(pid)
  {
  }

  /** The handle part of `terminate_detection`. Afterwards the child no longer runs (unless
      the monitor may not signal it) and nothing else is touched. */
  method Escalate(host: Host, pid: int)
    modifies host
    ensures host.live == old(host.live) - IfPermitted(pid, host.permitted)
    ensures host.ended == Uncollected(old(host.ended), old(host.live), host.live, host.children)
    ensures host.children == old(host.children)
    ensures host.calls == old(host.calls) +
      EscalationCalls(pid, old(host.live), old(host.ended), host.children, host.permitted, host.survives)
  {
    var delivered := host.Kill(pid, SigInt);
    if delivered {
      host.Sleep(2.0);
      var present := host.Kill(pid, Probe);
      if present {
        ghost var c, l := host.calls, host.live;
        TerminateThenKill(host, pid);
        UncollectedTrans(old(host.ended), old(host.live), l, host.live, host.children);
        assert host.calls == old(host.calls) + Interrupt(pid) + (host.calls[|c|..]);
      }
    }
  }

  /** The rest of the escalation once a probe has found the child after SIGINT: SIGTERM, a
      1 s wait, a probe, and SIGKILL if the probe finds the child again. */
  method TerminateThenKill(host: Host, pid: int)
    requires Reachable(pid, host.live, host.ended) && host.permitted(pid)
    modifies host
    ensures host.live == old(host.live) - {pid}
    ensures host.ended == Uncollected(old(host.ended), old(host.live), host.live, host.children)
    ensures host.children == old(host.children)
    ensures host.calls == old(host.calls) + Terminate(pid) +
      (if Lingers(pid, old(host.ended), host.children, host.survives, SigTerm) then ForceKill(pid) else [])
  {
    var _ := host.Kill(pid, SigTerm);
    host.Sleep(1.0);
    var present := host.Kill(pid, Probe);
    if present {
      var _ := host.Kill(pid, SigKill);
    }
  }
}
