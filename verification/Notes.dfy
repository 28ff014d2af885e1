/**
 The note inbox. Each agent has a read marker, a time kept in a file named after the agent; an
 inbox read shows the notes newer than the marker and moves it to the newest note addressed to
 the agent.
 */
module Notes {
  import opened Text

  datatype Note = Note(objectId: string, from: string, to: string, text: string, createdAtMs: nat)

  datatype Options = Options(allHistory: bool, sinceMs: Option<nat>, includeSelf: bool, peek: bool)

  /** A plain `note inbox`, with no flags. */
  const DEFAULT := Options(false, None, false, false)

  /* ----- the order notes are listed in ----- */

  predicate NoLater(m: Note, n: Note) {
    m.createdAtMs < n.createdAtMs || (m.createdAtMs == n.createdAtMs && AtMost(m.objectId, n.objectId))
  }

  function InsertNote(n: Note, ns: seq<Note>): seq<Note> {
    if ns == [] then [n]
    else if NoLater(n, ns[0]) then [n] + ns
    else [ns[0]] + InsertNote(n, ns[1..])
  }

  /** `list_notes`: by time, then by object id. */
  function SortNotes(ns: seq<Note>): seq<Note> {
    if ns == [] then [] else InsertNote(ns[0], SortNotes(ns[1..]))
  }

  predicate ByTime(ns: seq<Note>) {
    forall i, j :: 0 <= i < j < |ns| ==> NoLater(ns[i], ns[j])
  }

  lemma NoLaterTotal(m: Note, n: Note)
    ensures NoLater(m, n) || NoLater(n, m)
  {
    AtMostTotal(m.objectId, n.objectId);
    hide AtMost;
  }

  lemma NoLaterTransitive(k: Note, m: Note, n: Note)
    requires NoLater(k, m) && NoLater(m, n)
    ensures NoLater(k, n)
  {
    hide AtMost;
    if AtMost(k.objectId, m.objectId) && AtMost(m.objectId, n.objectId) { AtMostTransitive(k.objectId, m.objectId, n.objectId); }
  }

  lemma {:induction false} InsertNoteMembers(n: Note, ns: seq<Note>)
    ensures multiset(InsertNote(n, ns)) == multiset(ns) + multiset{n}
    ensures forall x :: x in InsertNote(n, ns) ==> x == n || x in ns
  {
    hide NoLater;
    if ns != [] {
      assert ns == [ns[0]] + ns[1..];
      InsertNoteMembers(n, ns[1..]);
    }
  }

  predicate NoneBefore(n: Note, ns: seq<Note>) {
    forall x :: x in ns ==> NoLater(n, x)
  }

  lemma ByTimeCons(n: Note, ns: seq<Note>)
    ensures ByTime([n] + ns) <==> NoneBefore(n, ns) && ByTime(ns)
  {
    hide NoLater;
    var all := [n] + ns;
    if ByTime(all) {
      forall i, j | 0 <= i < j < |ns| ensures NoLater(ns[i], ns[j]) {
        assert all[i + 1] == ns[i] && all[j + 1] == ns[j];
      }
      forall x | x in ns ensures NoLater(n, x) {
        var i :| 0 <= i < |ns| && ns[i] == x;
        assert all[0] == n && all[i + 1] == x;
      }
    }
  }

  lemma {:induction false} InsertNoteKeeps(n: Note, ns: seq<Note>)
    requires ByTime(ns)
    ensures multiset(InsertNote(n, ns)) == multiset(ns) + multiset{n}
    ensures ByTime(InsertNote(n, ns))
  {
    hide NoLater, ByTime;
    InsertNoteMembers(n, ns);
    ByTimeCons(n, ns);
    assert [n] + ns == InsertNote(n, ns) || ns != [];
    if ns == [] {
      assert [n] + ns == [n];
    } else {
      NoLaterTotal(n, ns[0]);
      assert ns == [ns[0]] + ns[1..];
      ByTimeCons(ns[0], ns[1..]);
      ByTimeCons(n, ns);
      if NoLater(n, ns[0]) {
        forall x | x in ns ensures NoLater(n, x) {
          if x != ns[0] { NoLaterTransitive(n, ns[0], x); }
        }
      }
      InsertNoteKeeps(n, ns[1..]);
      InsertNoteMembers(n, ns[1..]);
      ByTimeCons(ns[0], InsertNote(n, ns[1..]));
    }
  }

  lemma NothingByTime()
    ensures ByTime([])
  {}

  lemma {:induction false} SortNotesKeeps(ns: seq<Note>)
    ensures multiset(SortNotes(ns)) == multiset(ns)
    ensures ByTime(SortNotes(ns))
  {
    hide ByTime;
    NothingByTime();
    if ns != [] {
      SortNotesKeeps(ns[1..]);
      InsertNoteKeeps(ns[0], SortNotes(ns[1..]));
      assert ns == [ns[0]] + ns[1..];
    }
  }

  /* ----- one inbox read ----- */

  predicate Addressed(n: Note, agent: string) { n.to == agent || n.to == "all" }

  predicate Shows(n: Note, agent: string, bound: Option<nat>, includeSelf: bool) {
    && Addressed(n, agent)
    && (includeSelf || n.from != agent)
    && (bound.Some? ==> n.createdAtMs > bound.value)
  }

  function Matched(ns: seq<Note>, agent: string, bound: Option<nat>, includeSelf: bool): seq<Note> {
    if ns == [] then []
    else
      var front, n := Matched(ns[..|ns| - 1], agent, bound, includeSelf), ns[|ns| - 1];
      if Shows(n, agent, bound, includeSelf) then front + [n] else front
  }

  /** The newest note addressed to the agent, its own notes included, or the marker itself. */
  function Newest(ns: seq<Note>, agent: string, marker: nat): nat {
    if ns == [] then marker
    else
      var front, n := Newest(ns[..|ns| - 1], agent, marker), ns[|ns| - 1];
      if Addressed(n, agent) && n.createdAtMs > front then n.createdAtMs else front
  }

  function Bound(options: Options, marker: nat): Option<nat> {
    if options.allHistory then None
    else Some(if options.sinceMs.Some? then options.sinceMs.value else marker)
  }

  predicate FileChar(c: char) {
    'a' <= c <= 'z' || 'A' <= c <= 'Z' || '0' <= c <= '9' || c == '-' || c == '_' || c == '.'
  }

  /** `sanitize_agent_filename` */
  function MarkerFile(agent: string): string {
    seq(|agent|, i requires 0 <= i < |agent| => Kept(agent[i]))
  }

  function Kept(c: char): char {
    if FileChar(c) then c else '_'
  }

  type Markers = map<string, nat>

  /** A missing marker file reads as zero. */
  function MarkerOf(markers: Markers, agent: string): nat {
    if MarkerFile(agent) in markers then markers[MarkerFile(agent)] else 0
  }

  class NoteBox {
    var notes: seq<Note>
    var markers: Markers

    constructor ()
      ensures notes == [] && markers == map[]
    {
      notes, markers := [], map[];
    }

    /** `note inbox` */
    method Inbox(agent: string, options: Options) returns (matched: seq<Note>, readMarker: nat)
      modifies `markers
      ensures matched == Matched(SortNotes(notes), agent, Bound(options, old(MarkerOf(markers, agent))), options.includeSelf)
      ensures readMarker == Newest(SortNotes(notes), agent, old(MarkerOf(markers, agent)))
      ensures markers == if options.peek then old(markers) else old(markers)[MarkerFile(agent) := readMarker]
    {
      hide SortNotes, MarkerFile;
      var all := SortNotes(notes);
      var marker := MarkerOf(markers, agent);
      var lowerBound := Bound(options, marker);
      readMarker, matched := marker, [];
      for i := 0 to |all|
        invariant readMarker == Newest(all[..i], agent, marker)
        invariant matched == Matched(all[..i], agent, lowerBound, options.includeSelf)
      {
        assert all[..i + 1][..i] == all[..i];
        var n := all[i];
        if !Addressed(n, agent) {
          continue;
        }
        if n.createdAtMs > readMarker {
          readMarker := n.createdAtMs;
        }
        if !options.includeSelf && n.from == agent {
          continue;
        }
        if lowerBound.Some? && n.createdAtMs <= lowerBound.value {
          continue;
        }
        matched := matched + [n];
      }
      assert all[..|all|] == all;
      if !options.peek {
        markers := markers[MarkerFile(agent) := readMarker];
      }
    }
  }

  lemma {:induction false} MatchedCounts(ns: seq<Note>, agent: string, bound: Option<nat>, includeSelf: bool, n: Note)
    ensures multiset(Matched(ns, agent, bound, includeSelf))[n]
         == if Shows(n, agent, bound, includeSelf) then multiset(ns)[n] else 0
  {
    if ns != [] {
      MatchedCounts(ns[..|ns| - 1], agent, bound, includeSelf, n);
      assert ns == ns[..|ns| - 1] + [ns[|ns| - 1]];
    }
  }

  lemma {:induction false} MatchedByTime(ns: seq<Note>, agent: string, bound: Option<nat>, includeSelf: bool)
    requires ByTime(ns)
    ensures ByTime(Matched(ns, agent, bound, includeSelf))
    ensures forall n :: n in Matched(ns, agent, bound, includeSelf) ==> n in ns
  {
    hide NoLater, Shows;
    if ns != [] {
      var front, n := ns[..|ns| - 1], ns[|ns| - 1];
      assert forall i :: 0 <= i < |front| ==> front[i] == ns[i];
      MatchedByTime(front, agent, bound, includeSelf);
      var m := Matched(front, agent, bound, includeSelf);
      forall i | 0 <= i < |m| ensures NoLater(m[i], n) {
        assert m[i] in front;
        var j :| 0 <= j < |front| && front[j] == m[i];
        assert ns[j] == m[i];
      }
      assert ns == front + [n];
    }
  }

  lemma {:induction false} NewestBounds(ns: seq<Note>, agent: string, marker: nat)
    ensures Newest(ns, agent, marker) >= marker
    ensures forall n :: n in ns && Addressed(n, agent) ==> n.createdAtMs <= Newest(ns, agent, marker)
    ensures Newest(ns, agent, marker) == marker
         || exists n :: n in ns && Addressed(n, agent) && n.createdAtMs == Newest(ns, agent, marker)
  {
    if ns != [] {
      NewestBounds(ns[..|ns| - 1], agent, marker);
      assert ns == ns[..|ns| - 1] + [ns[|ns| - 1]];
    }
  }

  /** m is older than n, or as old and its id comes no later in the order of code points. */
  ghost predicate Precedes(m: Note, n: Note) {
    || m.createdAtMs < n.createdAtMs
    || (m.createdAtMs == n.createdAtMs && (m.objectId <= n.objectId || exists i: nat :: SmallerAt(m.objectId, n.objectId, i)))
  }

  lemma NoLaterMeans(m: Note, n: Note)
    ensures NoLater(m, n) <==> Precedes(m, n)
  {
    AtMostMeans(m.objectId, n.objectId);
    hide AtMost, SmallerAt;
  }

  /** n is for the agent or for everybody. */
  predicate IsFor(n: Note, agent: string) { n.to == "all" || n.to == agent }

  /** Newer than the agent's marker, or than a time given instead; with the whole history asked for any note is. */
  predicate IsNew(n: Note, options: Options, marker: nat) {
    match options.sinceMs
    case Some(since) => options.allHistory || since < n.createdAtMs
    case None => options.allHistory || marker < n.createdAtMs
  }

  lemma ShowsMeans(n: Note, agent: string, options: Options, marker: nat)
    ensures Shows(n, agent, Bound(options, marker), options.includeSelf) <==>
              IsFor(n, agent) && (n.from != agent || options.includeSelf) && IsNew(n, options, marker)
  {}

  /**
   What a read shows: each listed note as often as it is listed, exactly when it is for the agent,
   new and not its own (unless asked for); by time and then by object id.
   */
  lemma InboxMeaning(notes: seq<Note>, agent: string, options: Options, marker: nat)
    ensures var matched := Matched(SortNotes(notes), agent, Bound(options, marker), options.includeSelf);
            && (forall i, j :: 0 <= i < j < |matched| ==> Precedes(matched[i], matched[j]))
            && forall n :: multiset(matched)[n] ==
                 if IsFor(n, agent) && (n.from != agent || options.includeSelf) && IsNew(n, options, marker) then multiset(notes)[n] else 0
  {
    hide Shows, NoLater, Precedes, Bound, IsNew;
    var ns := SortNotes(notes);
    SortNotesKeeps(notes);
    MatchedByTime(ns, agent, Bound(options, marker), options.includeSelf);
    forall m, n ensures NoLater(m, n) <==> Precedes(m, n) { NoLaterMeans(m, n); }
    forall n ensures multiset(Matched(ns, agent, Bound(options, marker), options.includeSelf))[n]
                  == if IsFor(n, agent) && (n.from != agent || options.includeSelf) && IsNew(n, options, marker) then multiset(notes)[n] else 0
    {
      MatchedCounts(ns, agent, Bound(options, marker), options.includeSelf, n);
      ShowsMeans(n, agent, options, marker);
    }
  }

  /** The marker a read leaves: the newest time of a note for the agent, its own included, or the old marker when that is newer. */
  lemma MarkerMeaning(notes: seq<Note>, agent: string, marker: nat)
    ensures var newest := Newest(SortNotes(notes), agent, marker);
            && newest >= marker
            && (forall n :: n in notes && IsFor(n, agent) ==> n.createdAtMs <= newest)
            && (newest == marker || exists n :: n in notes && IsFor(n, agent) && n.createdAtMs == newest)
  {
    hide ByTime;
    var ns := SortNotes(notes);
    SortNotesKeeps(notes);
    NewestBounds(ns, agent, marker);
    forall n ensures n in notes <==> n in ns {
      assert n in multiset(notes) <==> n in multiset(ns);
    }
  }

  /* ----- runs of arrivals and reads ----- */

  /** Notes held, markers, and every note shown to an agent so far. */
  datatype State = State(notes: seq<Note>, markers: Markers, shown: map<string, seq<Note>>)

  datatype Action = Arrive(n: Note) | Read(agent: string)

  function ShownTo(s: State, agent: string): seq<Note> {
    if agent in s.shown then s.shown[agent] else []
  }

  function ReadStep(s: State, agent: string): State {
    var marker := MarkerOf(s.markers, agent);
    var matched := Matched(SortNotes(s.notes), agent, Bound(DEFAULT, marker), DEFAULT.includeSelf);
    State(s.notes,
          s.markers[MarkerFile(agent) := Newest(SortNotes(s.notes), agent, marker)],
          s.shown[agent := ShownTo(s, agent) + matched])
  }

  function Step(s: State, a: Action): State {
    match a
    case Arrive(n) => if n in s.notes then s else s.(notes := s.notes + [n])
    case Read(agent) => ReadStep(s, agent)
  }

  function Run(actions: seq<Action>): State {
    if actions == [] then State([], map[], map[])
    else Step(Run(actions[..|actions| - 1]), actions[|actions| - 1])
  }

  function TimesShown(s: State, agent: string, n: Note): nat {
    multiset(ShownTo(s, agent))[n]
  }

  /** How one read changes what an agent with that marker file has seen, and its marker. */
  lemma ReadStepEffect(s: State, reader: string, agent: string, n: Note)
    ensures var t := ReadStep(s, reader);
            && MarkerOf(t.markers, agent) >= MarkerOf(s.markers, agent)
            && (MarkerFile(reader) != MarkerFile(agent) ==> MarkerOf(t.markers, agent) == MarkerOf(s.markers, agent))
            && (reader == agent && n in s.notes && Addressed(n, agent) ==> n.createdAtMs <= MarkerOf(t.markers, agent))
            && TimesShown(t, agent, n) == TimesShown(s, agent, n)
                 + (if reader == agent && Shows(n, agent, Some(MarkerOf(s.markers, agent)), false) then multiset(s.notes)[n] else 0)
  {
    hide SortNotes, MarkerFile, Matched, Newest, Shows, Precedes;
    var marker := MarkerOf(s.markers, reader);
    MarkerMeaning(s.notes, reader, marker);
    InboxMeaning(s.notes, reader, DEFAULT, marker);
    ShowsMeans(n, agent, DEFAULT, marker);
    if reader == agent {
      var matched := Matched(SortNotes(s.notes), agent, Bound(DEFAULT, marker), DEFAULT.includeSelf);
      assert ShownTo(ReadStep(s, reader), agent) == ShownTo(s, agent) + matched;
    }
  }

  /** The read marker of every agent only ever goes up. */
  lemma MarkerNeverDecreases(s: State, a: Action, agent: string)
    ensures MarkerOf(Step(s, a).markers, agent) >= MarkerOf(s.markers, agent)
  {
    hide MarkerFile, ReadStep;
    if a.Read? { ReadStepEffect(s, a.agent, agent, Note("", "", "", "", 0)); }
  }

  ghost predicate NoRepeats(ns: seq<Note>) {
    forall n :: multiset(ns)[n] <= 1
  }

  /** No note is held twice, and each is shown at most once to each agent. */
  ghost predicate SeenOnce(s: State) {
    NoRepeats(s.notes) && forall agent, n :: Seen(s, agent, n)
  }

  /** A note once shown to an agent is at or below the agent's marker, and was shown once. */
  ghost predicate Seen(s: State, agent: string, n: Note) {
    TimesShown(s, agent, n) > 0 ==>
      TimesShown(s, agent, n) == 1 && n in s.notes && n.createdAtMs <= MarkerOf(s.markers, agent)
  }

  lemma ReadSeen(s: State, reader: string, agent: string, n: Note)
    requires NoRepeats(s.notes) && Seen(s, agent, n)
    ensures Seen(ReadStep(s, reader), agent, n)
  {
    hide MarkerFile, ReadStep, SortNotes, MarkerOf, TimesShown, Addressed;
    ReadStepEffect(s, reader, agent, n);
    ReadKeepsNotes(s, reader);
    assert multiset(s.notes)[n] <= 1;
    assert n in multiset(s.notes) <==> n in s.notes;
  }

  lemma StepSeenOnce(s: State, a: Action)
    requires SeenOnce(s)
    ensures SeenOnce(Step(s, a))
  {
    hide MarkerFile, ReadStep, SortNotes, MarkerOf;
    var t := Step(s, a);
    if a.Read? {
      ReadKeepsNotes(s, a.agent);
      forall agent, n ensures Seen(t, agent, n) {
        ReadSeen(s, a.agent, agent, n);
      }
    } else {
      forall agent, n ensures Seen(t, agent, n) {
        assert Seen(s, agent, n) && ShownTo(t, agent) == ShownTo(s, agent);
      }
      assert a.n in multiset(s.notes) <==> a.n in s.notes;
    }
  }

  lemma ReadKeepsNotes(s: State, agent: string)
    ensures ReadStep(s, agent).notes == s.notes
  {}

  lemma NothingSeen()
    ensures SeenOnce(State([], map[], map[]))
  {}

  /** No note is ever shown twice to an agent. */
  lemma {:induction false} NeverShownTwice(actions: seq<Action>)
    ensures SeenOnce(Run(actions))
  {
    hide Step, SeenOnce;
    NothingSeen();
    if actions != [] {
      NeverShownTwice(actions[..|actions| - 1]);
      StepSeenOnce(Run(actions[..|actions| - 1]), actions[|actions| - 1]);
    }
  }

  /** Nobody else's reads touch this agent's marker file. */
  ghost predicate OwnMarkerFile(actions: seq<Action>, agent: string) {
    forall k :: 0 <= k < |actions| && actions[k].Read? && MarkerFile(actions[k].agent) == MarkerFile(agent)
      ==> actions[k].agent == agent
  }

  ghost predicate ReadAfter(actions: seq<Action>, m: nat, agent: string) {
    exists k :: m < k < |actions| && actions[k] == Read(agent)
  }

  /** Where a note for an agent stands: waiting to be shown, shown once, or passed by for good. */
  ghost predicate Stands(s: State, agent: string, n: Note, late: bool, read: bool) {
    && multiset(s.notes)[n] == 1
    && TimesShown(s, agent, n) == (if !late && read then 1 else 0)
    && (n.createdAtMs <= MarkerOf(s.markers, agent) <==> late || read)
  }

  lemma StepStands(s: State, a: Action, agent: string, n: Note, late: bool, read: bool)
    requires Addressed(n, agent) && n.from != agent && Stands(s, agent, n, late, read)
    requires a.Read? && MarkerFile(a.agent) == MarkerFile(agent) ==> a.agent == agent
    ensures Stands(Step(s, a), agent, n, late, read || a == Read(agent))
  {
    hide MarkerFile, ReadStep, MarkerOf, Addressed;
    assert n in multiset(s.notes) && n in s.notes;
    if a.Read? {
      ReadStepEffect(s, a.agent, agent, n);
      ReadKeepsNotes(s, a.agent);
    }
  }

  lemma {:induction false} RunStands(actions: seq<Action>, m: nat, agent: string, n: Note)
    requires m < |actions| && actions[m] == Arrive(n) && n !in Run(actions[..m]).notes
    requires Addressed(n, agent) && n.from != agent && OwnMarkerFile(actions, agent)
    ensures Stands(Run(actions), agent, n, n.createdAtMs <= MarkerOf(Run(actions[..m]).markers, agent), ReadAfter(actions, m, agent))
    decreases |actions|
  {
    hide MarkerFile, ReadStep, MarkerOf, Addressed, Stands, SeenOnce;
    var front, a := actions[..|actions| - 1], actions[|actions| - 1];
    assert front[..m] == actions[..m];
    var late := n.createdAtMs <= MarkerOf(Run(actions[..m]).markers, agent);
    if m == |front| {
      assert front == actions[..m];
      NeverShownTwice(actions[..m]);
      JustArrived(Run(actions[..m]), agent, n);
      assert !ReadAfter(actions, m, agent);
    } else {
      assert forall k :: 0 <= k < |front| ==> front[k] == actions[k];
      RunStands(front, m, agent, n);
      StepStands(Run(front), a, agent, n, late, ReadAfter(front, m, agent));
      if ReadAfter(front, m, agent) {
        var k :| m < k < |front| && front[k] == Read(agent);
        assert actions[k] == Read(agent);
      }
      if a == Read(agent) { assert actions[|actions| - 1] == Read(agent); }
      if ReadAfter(actions, m, agent) {
        var k :| m < k < |actions| && actions[k] == Read(agent);
        if k < |front| { assert front[k] == Read(agent); }
      }
    }
  }

  lemma JustArrived(s: State, agent: string, n: Note)
    requires SeenOnce(s) && n !in s.notes
    ensures Stands(Step(s, Arrive(n)), agent, n, n.createdAtMs <= MarkerOf(s.markers, agent), false)
  {
    hide MarkerOf, SeenOnce;
    NotSeenYet(s, agent, n);
    assert n !in multiset(s.notes);
  }

  lemma NotSeenYet(s: State, agent: string, n: Note)
    requires SeenOnce(s) && n !in s.notes
    ensures TimesShown(s, agent, n) == 0
  {
    hide MarkerOf;
    assert Seen(s, agent, n);
  }

  /**
   Once an agent with a marker file of its own has read its inbox after a note from another
   agent arrived, the note has been shown to it exactly once if its time was above the marker
   when it arrived, and will never have been shown otherwise.
   */
  lemma ShownExactlyWhenNewer(actions: seq<Action>, m: nat, agent: string, n: Note)
    requires m < |actions| && actions[m] == Arrive(n) && n !in Run(actions[..m]).notes
    requires Addressed(n, agent) && n.from != agent && OwnMarkerFile(actions, agent) && ReadAfter(actions, m, agent)
    ensures TimesShown(Run(actions), agent, n)
         == if n.createdAtMs > MarkerOf(Run(actions[..m]).markers, agent) then 1 else 0
  {
    hide MarkerFile, Run, MarkerOf, Addressed;
    RunStands(actions, m, agent, n);
  }

  /** In this run a note newer than the agent's marker arrives, the agent reads, and never sees it. */
  ghost predicate Hidden(actions: seq<Action>, m: nat, agent: string, n: Note) {
    && m < |actions| && actions[m] == Arrive(n) && n !in Run(actions[..m]).notes
    && Addressed(n, agent) && n.from != agent && ReadAfter(actions, m, agent)
    && n.createdAtMs > MarkerOf(Run(actions[..m]).markers, agent)
    && TimesShown(Run(actions), agent, n) == 0
  }

  predicate OnlyRead(actions: seq<Action>, other: string, agent: string) {
    forall k :: 0 <= k < |actions| && actions[k].Read? ==> actions[k].agent == agent || actions[k].agent == other
  }

  /** Reads by `other` and the agent alone can hide a note from the agent. */
  ghost predicate CanHide(other: string, agent: string) {
    exists actions, m, n :: OnlyRead(actions, other, agent) && Hidden(actions, m, agent, n)
  }

  /** A run in which `other` reads between the arrival of a note and the agent's read. */
  function Overtaken(other: string, agent: string): seq<Action> {
    [Arrive(Note("n", other, agent, "", 1)), Arrive(Note("m", agent, "all", "", 1)), Read(other), Read(agent)]
  }

  /** Any two agents with one marker file: a broadcast read by the other moves the marker past the note. */
  lemma SharedMarkerFileHides(other: string, agent: string)
    requires other != agent && MarkerFile(other) == MarkerFile(agent)
    ensures Hidden(Overtaken(other, agent), 0, agent, Note("n", other, agent, "", 1))
  {
    hide MarkerFile, ReadStep;
    var late, broadcast := Note("n", other, agent, "", 1), Note("m", agent, "all", "", 1);
    var actions := Overtaken(other, agent);
    var s0 := State([], map[], map[]);
    var s2 := Step(Step(s0, Arrive(late)), Arrive(broadcast));
    FourSteps(Arrive(late), Arrive(broadcast), Read(other), Read(agent));
    assert s2.notes == [late, broadcast] && TimesShown(s2, agent, late) == 0;
    SharedReads(s2, other, agent, late, broadcast);
    assert actions[3] == Read(agent);
  }

  lemma FourSteps(a: Action, b: Action, c: Action, d: Action)
    ensures Run([a, b, c, d]) == Step(Step(Step(Step(State([], map[], map[]), a), b), c), d)
    ensures Run([a, b, c, d][..0]) == State([], map[], map[])
  {
    hide Step;
    assert [a, b, c, d][..3] == [a, b, c] && [a, b, c][..2] == [a, b] && [a, b][..1] == [a];
    assert [a][..0] == [];
    assert Run([a]) == Step(Run([]), a);
    assert Run([a, b]) == Step(Run([a]), b);
    assert Run([a, b, c]) == Step(Run([a, b]), c);
  }

  lemma SharedReads(s: State, other: string, agent: string, late: Note, broadcast: Note)
    requires broadcast in s.notes && broadcast.to == "all" && late.createdAtMs <= broadcast.createdAtMs
    requires other != agent && MarkerFile(other) == MarkerFile(agent)
    ensures TimesShown(ReadStep(ReadStep(s, other), agent), agent, late) == TimesShown(s, agent, late)
  {
    hide MarkerFile, ReadStep, TimesShown;
    var t := ReadStep(s, other);
    ReadStepEffect(s, other, other, broadcast);
    ReadStepEffect(s, other, agent, late);
    ReadStepEffect(t, agent, agent, late);
    assert MarkerOf(t.markers, agent) == MarkerOf(t.markers, other);
  }

  /** Another agent's reads can hide a note from this one exactly when their names have one marker file. */
  lemma HidingNeedsOneFile(other: string, agent: string)
    requires other != agent
    ensures CanHide(other, agent) <==> MarkerFile(other) == MarkerFile(agent)
  {
    hide MarkerFile, Run, MarkerOf, TimesShown, Addressed;
    if MarkerFile(other) == MarkerFile(agent) {
      SharedMarkerFileHides(other, agent);
      assert OnlyRead(Overtaken(other, agent), other, agent);
    } else {
      forall actions, m, n | OnlyRead(actions, other, agent)
        ensures !Hidden(actions, m, agent, n)
      {
        if Hidden(actions, m, agent, n) {
          assert OwnMarkerFile(actions, agent);
          ShownExactlyWhenNewer(actions, m, agent, n);
        }
      }
    }
  }

  /** Letters, digits, '-' and '.' tell names apart. */
  predicate Telling(c: char) {
    'a' <= c <= 'z' || 'A' <= c <= 'Z' || '0' <= c <= '9' || c in "-."
  }

  /** Two names have one marker file exactly when, place by place, they have one character or neither has one that tells names apart. */
  lemma OneFileMeans(a: string, b: string)
    ensures MarkerFile(a) == MarkerFile(b) <==>
              |a| == |b| && forall i :: 0 <= i < |a| ==> a[i] == b[i] || (!Telling(a[i]) && !Telling(b[i]))
  {
    forall c, d ensures Kept(c) == Kept(d) <==> c == d || (!Telling(c) && !Telling(d)) { KeptMeans(c, d); }
    hide Kept, Telling;
    if MarkerFile(a) == MarkerFile(b) {
      assert |a| == |MarkerFile(a)| == |b|;
      forall i | 0 <= i < |a| ensures Kept(a[i]) == Kept(b[i]) {
        assert MarkerFile(a)[i] == MarkerFile(b)[i];
      }
    }
  }

  lemma KeptMeans(c: char, d: char)
    ensures Kept(c) == Kept(d) <==> c == d || (!Telling(c) && !Telling(d))
  {}
}
