/** Guarded file edits with an undo log (infra/ops_guards.py): every accepted change is recorded, and if an
    edited Python file no longer compiles the record is walked backwards. */
module UndoLog {
  import opened Common

  const MAX_CHANGE_BYTES := 24000
  const MAX_NET_NEW_LINES := 400

  type Path = string

  datatype Action = Modify | Append | Create | Unknown

  /** A requested change; `stamp` is the second in which its backup would be named. */
  datatype Change = Change(file: Path, action: Action, search: string, replace: string, stamp: int)

  /** The fixed guards: file lists, protected patterns, text size in bytes, and the compiler. */
  datatype Guards = Guards(
    forbidden: set<Path>,
    allowed: set<Path>,
    violates: (Path, string) -> bool,
    bytes: string -> nat,
    compiles: string -> bool)

  // ----- Text -----

  /** The number of non-overlapping occurrences, scanning from the left. */
  function Count(text: string, pattern: string): nat
    requires pattern != []
  {
    if |text| < |pattern| then 0
    else if text[..|pattern|] == pattern then 1 + Count(text[|pattern|..], pattern)
    else Count(text[1..], pattern)
  }

  function ReplaceFirst(text: string, pattern: string, with: string): string
    requires pattern != []
  {
    if |text| < |pattern| then text
    else if text[..|pattern|] == pattern then with + text[|pattern|..]
    else [text[0]] + ReplaceFirst(text[1..], pattern, with)
  }

  function Newlines(text: string): nat {
    if text == [] then 0 else (if text[0] == '\n' then 1 else 0) + Newlines(text[1..])
  }

  predicate OccursAt(text: string, pattern: string, i: nat) {
    i + |pattern| <= |text| && text[i..i + |pattern|] == pattern
  }

  lemma {:induction false} CountIsZeroIff(text: string, pattern: string)
    requires pattern != []
    ensures Count(text, pattern) == 0 <==> forall i: nat :: !OccursAt(text, pattern, i)
  {
    if |text| >= |pattern| {
      if text[..|pattern|] == pattern {
        assert OccursAt(text, pattern, 0);
      } else {
        CountIsZeroIff(text[1..], pattern);
        assert Count(text, pattern) == Count(text[1..], pattern);
        assert !OccursAt(text, pattern, 0);
        hide *;
        forall i: nat
          ensures OccursAt(text, pattern, i + 1) <==> OccursAt(text[1..], pattern, i)
        {
          OccursBehind(text, pattern, i);
        }
        if forall i: nat :: !OccursAt(text[1..], pattern, i) {
          forall i: nat
            ensures !OccursAt(text, pattern, i)
          {
            if i > 0 {
              assert !OccursAt(text[1..], pattern, i - 1);
              OccursBehind(text, pattern, i - 1);
            }
          }
        }
      }
    }
  }

  lemma OccursBehind(text: string, pattern: string, i: nat)
    requires text != []
    ensures OccursAt(text, pattern, i + 1) <==> OccursAt(text[1..], pattern, i)
  {
    if i + 1 + |pattern| <= |text| {
      assert text[1..][i..i + |pattern|] == text[i + 1..i + 1 + |pattern|];
    }
  }

  /** Where a text occurs, it occurs once more than behind its first occurrence. */
  lemma {:induction false} CountsFirst(text: string, pattern: string, i: nat)
    requires pattern != [] && OccursAt(text, pattern, i) && forall j: nat | j < i :: !OccursAt(text, pattern, j)
    ensures Count(text, pattern) == 1 + Count(text[i + |pattern|..], pattern)
  {
    if i > 0 {
      assert !OccursAt(text, pattern, 0);
      OccursBehind(text, pattern, i - 1);
      forall j: nat | j < i - 1
        ensures !OccursAt(text[1..], pattern, j)
      {
        assert !OccursAt(text, pattern, j + 1);
        OccursBehind(text, pattern, j);
      }
      CountsFirst(text[1..], pattern, i - 1);
      assert text[1..][i - 1 + |pattern|..] == text[i + |pattern|..];
    }
  }

  predicate IsPython(file: Path) {
    |file| >= 3 && file[|file| - 3..] == ".py"
  }

  lemma Prepend(c: char, a: string, b: string, d: string)
    ensures [c] + (a + b + d) == ([c] + a) + b + d
  {
  }

  /** A replacement swaps one occurrence and leaves the text around it alone. */
  lemma {:induction false} ReplaceIsLocal(text: string, pattern: string, with: string)
    returns (pre: string, post: string)
    requires pattern != [] && Count(text, pattern) >= 1
    ensures text == pre + pattern + post
    ensures ReplaceFirst(text, pattern, with) == pre + with + post
  {
    assert |text| >= |pattern|;
    if text[..|pattern|] == pattern {
      pre, post := [], text[|pattern|..];
    } else {
      assert ReplaceFirst(text, pattern, with) == [text[0]] + ReplaceFirst(text[1..], pattern, with);
      var rest;
      rest, post := ReplaceIsLocal(text[1..], pattern, with);
      hide *;
      pre := [text[0]] + rest;
      assert text == [text[0]] + text[1..];
      Prepend(text[0], rest, pattern, post);
      Prepend(text[0], rest, with, post);
    }
  }

  // ----- One change -----

  predicate PassesGuards(g: Guards, ch: Change) {
    && ch.file !in g.forbidden
    && ch.file in g.allowed
    && !g.violates(ch.file, ch.search)
    && !g.violates(ch.file, ch.replace)
    && g.bytes(ch.replace) <= MAX_CHANGE_BYTES
    && (ch.action.Modify? ==> Newlines(ch.replace) as int - Newlines(ch.search) as int <= MAX_NET_NEW_LINES)
  }

  /** The file's new text, or None if the change is rejected. */
  function NewText(g: Guards, project: map<Path, string>, ch: Change): Option<string> {
    if !PassesGuards(g, ch) then None
    else match ch.action
      case Modify =>
        if ch.search == [] || ch.file !in project || Count(project[ch.file], ch.search) != 1 then None
        else Some(ReplaceFirst(project[ch.file], ch.search, ch.replace))
      case Append =>
        if ch.replace == [] then None
        else Some((if ch.file in project then project[ch.file] else "") + "\n" + ch.replace)
      case Create =>
        if ch.file in project then None else Some(ch.replace)
      case Unknown => None
  }

  function Lookup(project: map<Path, string>, file: Path): Option<string> {
    if file in project then Some(project[file]) else None
  }

  lemma {:induction false} NewlinesAre(text: string)
    ensures Newlines(text) == multiset(text)['\n']
  {
    if text != [] {
      NewlinesAre(text[1..]);
      assert text == [text[0]] + text[1..];
    }
  }

  /** Nothing in the change touches what is guarded: the file lists, the protected patterns, the size in bytes and,
      for a modification, the number of lines it adds. */
  predicate Harmless(g: Guards, ch: Change) {
    && ch.file in g.allowed - g.forbidden
    && !(g.violates(ch.file, ch.search) || g.violates(ch.file, ch.replace))
    && g.bytes(ch.replace) <= 24000
    && (ch.action == Modify ==> multiset(ch.replace)['\n'] <= multiset(ch.search)['\n'] + 400)
  }

  /** What a change makes of what it finds: a modification swaps one occurrence, an append puts a line behind the
      text, a creation writes a text where there was no file. */
  predicate Makes(ch: Change, found: Option<string>, text: string) {
    match ch.action
    case Modify => found.Some? && ch.search != [] && text == ReplaceFirst(found.value, ch.search, ch.replace)
    case Append => ch.replace != [] && text == (if found.Some? then found.value else []) + ['\n'] + ch.replace
    case Create => found.None? && text == ch.replace
    case Unknown => false
  }

  /** A change is accepted exactly if it is harmless and makes something of what it finds, a modification only where its
      text occurs once; and then it makes that. */
  lemma ChangeIsAcceptedIff(g: Guards, project: map<Path, string>, ch: Change, text: string)
    ensures NewText(g, project, ch) == Some(text) <==>
      && Harmless(g, ch) && Makes(ch, Lookup(project, ch.file), text)
      && (ch.action == Modify ==> Count(project[ch.file], ch.search) == 1)
  {
    NewlinesAre(ch.replace);
    NewlinesAre(ch.search);
    hide Newlines;
    hide Count;
    hide ReplaceFirst;
  }

  /** A modification adds at most four hundred lines. */
  lemma ModificationIsSmall(g: Guards, project: map<Path, string>, ch: Change, text: string)
    requires NewText(g, project, ch) == Some(text) && ch.action == Modify
    ensures multiset(text)['\n'] <= multiset(project[ch.file])['\n'] + 400
  {
    ChangeIsAcceptedIff(g, project, ch, text);
    var pre, post := ReplaceIsLocal(project[ch.file], ch.search, ch.replace);
    assert multiset(text) == multiset(pre) + multiset(ch.replace) + multiset(post);
    assert multiset(project[ch.file]) == multiset(pre) + multiset(ch.search) + multiset(post);
  }

  // ----- A plan -----

  /** An accepted change with the text it found and the text it left. */
  datatype Edit = Edit(file: Path, stamp: int, before: Option<string>, after: string)

  /** The accepted changes of a plan, in order. */
  function Edits(g: Guards, project: map<Path, string>, plan: seq<Change>): seq<Edit> {
    if plan == [] then []
    else WithChange(g, project, Edits(g, project, plan[..|plan| - 1]), plan[|plan| - 1])
  }

  /** One more change, tried against the project as the earlier edits left it. */
  function WithChange(g: Guards, project: map<Path, string>, edits: seq<Edit>, ch: Change): seq<Edit> {
    var now := Replay(project, edits);
    match NewText(g, now, ch)
    case None => edits
    case Some(text) => edits + [Edit(ch.file, ch.stamp, Lookup(now, ch.file), text)]
  }

  function Replay(project: map<Path, string>, edits: seq<Edit>): map<Path, string> {
    if edits == [] then project
    else Replay(project, edits[..|edits| - 1])[edits[|edits| - 1].file := edits[|edits| - 1].after]
  }

  type BackupName = (Path, int)

  lemma ReplaySnoc(project: map<Path, string>, edits: seq<Edit>, e: Edit)
    ensures Replay(project, edits + [e]) == Replay(project, edits)[e.file := e.after]
  {
    assert (edits + [e])[..|edits|] == edits;
  }

  lemma BackupsSnoc(start: map<BackupName, string>, edits: seq<Edit>, e: Edit)
    ensures Backups(start, edits + [e])
         == if e.before.Some? then Backups(start, edits)[(e.file, e.stamp) := e.before.value] else Backups(start, edits)
  {
    assert (edits + [e])[..|edits|] == edits;
  }

  /** The backup files written by a run of edits, in addition to the earlier ones. */
  function Backups(start: map<BackupName, string>, edits: seq<Edit>): map<BackupName, string> {
    if edits == [] then start
    else
      var b, e := Backups(start, edits[..|edits| - 1]), edits[|edits| - 1];
      if e.before.Some? then b[(e.file, e.stamp) := e.before.value] else b
  }

  function UndoOne(project: map<Path, string>, e: Edit, backups: map<BackupName, string>): map<Path, string> {
    if e.before.None? then project - {e.file}
    else if (e.file, e.stamp) in backups then project[e.file := backups[(e.file, e.stamp)]]
    else project
  }

  /** Walks the edits backwards. */
  function Undo(project: map<Path, string>, edits: seq<Edit>, backups: map<BackupName, string>): map<Path, string>
    decreases |edits|
  {
    if edits == [] then project
    else Undo(UndoOne(project, edits[|edits| - 1], backups), edits[..|edits| - 1], backups)
  }

  predicate Compiles(g: Guards, project: map<Path, string>, edits: seq<Edit>) {
    forall i | 0 <= i < |edits| :: FileCompiles(g, project, edits[i].file)
  }

  predicate FileCompiles(g: Guards, project: map<Path, string>, file: Path) {
    IsPython(file) && file in project ==> g.compiles(project[file])
  }

  /** The project after a whole plan, undone if it does not compile. */
  function Outcome(g: Guards, project: map<Path, string>, backups: map<BackupName, string>, edits: seq<Edit>)
    : map<Path, string>
  {
    var edited := Replay(project, edits);
    if Compiles(g, edited, edits) then edited else Undo(edited, edits, Backups(backups, edits))
  }

  class Workspace {
    var project: map<Path, string>
    var backups: map<BackupName, string>

    /** Applies the plan; returns the log of edits and whether they were rolled back. */
    method ApplyChanges(g: Guards, plan: seq<Change>) returns (ledger: seq<Edit>, rolledBack: bool)
      modifies this
      ensures ledger == Edits(g, old(project), plan)
      ensures backups == Backups(old(backups), ledger)
      ensures rolledBack == !Compiles(g, Replay(old(project), ledger), ledger)
      ensures project == Outcome(g, old(project), old(backups), ledger)
    {
      ledger := MakeEdits(g, plan);
      var good := CheckCompiles(g, ledger);
      if !good {
        RollBack(ledger);
      }
      rolledBack := !good;
    }

    /** The first loop: one change after the other, each rejected or backed up, written and logged. */
    method MakeEdits(g: Guards, plan: seq<Change>) returns (ledger: seq<Edit>)
      modifies this
      ensures ledger == Edits(g, old(project), plan)
      ensures project == Replay(old(project), ledger)
      ensures backups == Backups(old(backups), ledger)
    {
      ledger := [];
      for i := 0 to |plan|
        invariant ledger == Edits(g, old(project), plan[..i])
        invariant project == Replay(old(project), ledger)
        invariant backups == Backups(old(backups), ledger)
      {
        EditsStep(g, old(project), plan, i);
        ledger := MakeEdit(g, old(project), old(backups), ledger, plan[i]);
      }
      assert plan[..|plan|] == plan;
    }

    method MakeEdit(g: Guards, ghost project0: map<Path, string>, ghost backups0: map<BackupName, string>,
                    before: seq<Edit>, ch: Change)
      returns (ledger: seq<Edit>)
      requires project == Replay(project0, before) && backups == Backups(backups0, before)
      modifies this
      ensures ledger == WithChange(g, project0, before, ch)
      ensures project == Replay(project0, ledger)
      ensures backups == Backups(backups0, ledger)
    {
      ledger := before;
      var text := NewText(g, project, ch);
      if text.Some? {
        var found := Lookup(project, ch.file);
        var e := Edit(ch.file, ch.stamp, found, text.value);
        if found.Some? {
          backups := backups[(ch.file, ch.stamp) := found.value];
        }
        project := project[ch.file := text.value];
        ledger := ledger + [e];
        ReplaySnoc(project0, before, e);
        BackupsSnoc(backups0, before, e);
      }
    }

    /** The second loop: every edited Python file goes through the compiler. */
    method CheckCompiles(g: Guards, ledger: seq<Edit>) returns (good: bool)
      ensures good == Compiles(g, project, ledger)
    {
      good := true;
      for i := 0 to |ledger|
        invariant good == forall k | 0 <= k < i :: FileCompiles(g, project, ledger[k].file)
      {
        if !FileCompiles(g, project, ledger[i].file) {
          good := false;
        }
      }
    }

    /** The third loop: the log backwards. */
    method RollBack(ledger: seq<Edit>)
      modifies this`project
      ensures project == Undo(old(project), ledger, backups)
    {
      var n := |ledger|;
      assert ledger[..n] == ledger;
      while n > 0
        invariant 0 <= n <= |ledger|
        invariant Undo(project, ledger[..n], backups) == Undo(old(project), ledger, backups)
      {
        n := n - 1;
        assert ledger[..n + 1][..n] == ledger[..n];
        project := UndoOne(project, ledger[n], backups);
      }
    }
  }

  lemma EditsStep(g: Guards, project: map<Path, string>, plan: seq<Change>, i: nat)
    requires i < |plan|
    ensures Edits(g, project, plan[..i + 1]) == WithChange(g, project, Edits(g, project, plan[..i]), plan[i])
  {
    assert plan[..i + 1][..i] == plan[..i];
  }

  // ----- What an undo restores -----

  /** The first edit of each file. */
  ghost predicate IsFirst(edits: seq<Edit>, i: nat)
    requires i < |edits|
  {
    forall k | 0 <= k < i :: edits[k].file != edits[i].file
  }

  ghost predicate Touches(edits: seq<Edit>, file: Path) {
    exists i | 0 <= i < |edits| :: edits[i].file == file
  }

  lemma {:induction false} UntouchedStays(project: map<Path, string>, edits: seq<Edit>, file: Path)
    requires !Touches(edits, file)
    ensures Lookup(Replay(project, edits), file) == Lookup(project, file)
  {
    if edits != [] {
      var n := |edits| - 1;
      assert !Touches(edits[..n], file) by {
        assert forall i | 0 <= i < n :: edits[..n][i] == edits[i];
      }
      UntouchedStays(project, edits[..n], file);
    }
  }

  /** A file that no edit names is left alone by the undo; any other ends as its first edit's undo leaves it. */
  lemma {:induction false} UndoResult(project: map<Path, string>, edits: seq<Edit>, backups: map<BackupName, string>,
                                      file: Path)
    ensures !Touches(edits, file) ==> Lookup(Undo(project, edits, backups), file) == Lookup(project, file)
    ensures forall i | 0 <= i < |edits| && edits[i].file == file && IsFirst(edits, i) ::
              var e := edits[i];
              && (e.before.None? ==> file !in Undo(project, edits, backups))
              && (e.before.Some? && (file, e.stamp) in backups ==>
                    Lookup(Undo(project, edits, backups), file) == Some(backups[(file, e.stamp)]))
  {
    if !Touches(edits, file) {
      UndoUntouched(project, edits, backups, file);
    }
    hide IsFirst;
    hide Undo;
    forall i | 0 <= i < |edits| && edits[i].file == file && IsFirst(edits, i)
      ensures edits[i].before.None? ==> file !in Undo(project, edits, backups)
      ensures edits[i].before.Some? && (file, edits[i].stamp) in backups ==>
        Lookup(Undo(project, edits, backups), file) == Some(backups[(file, edits[i].stamp)])
    {
      UndoFirst(project, edits, backups, i);
    }
  }

  lemma TouchesSnoc(edits: seq<Edit>, e: Edit, file: Path)
    ensures Touches(edits + [e], file) <==> Touches(edits, file) || e.file == file
  {
    assert (edits + [e])[|edits|] == e;
    assert forall i | 0 <= i < |edits| :: (edits + [e])[i] == edits[i];
  }

  lemma {:induction false} UndoUntouched(project: map<Path, string>, edits: seq<Edit>, backups: map<BackupName, string>,
                                         file: Path)
    requires !Touches(edits, file)
    ensures Lookup(Undo(project, edits, backups), file) == Lookup(project, file)
    decreases |edits|
  {
    if edits != [] {
      var n := |edits| - 1;
      assert edits == edits[..n] + [edits[n]];
      TouchesSnoc(edits[..n], edits[n], file);
      hide Touches;
      UndoUntouched(UndoOne(project, edits[n], backups), edits[..n], backups, file);
    }
  }

  lemma FirstIsUntouchedBefore(edits: seq<Edit>, i: nat)
    requires i < |edits| && IsFirst(edits, i)
    ensures !Touches(edits[..i], edits[i].file)
  {
  }

  lemma {:induction false} UndoFirst(project: map<Path, string>, edits: seq<Edit>, backups: map<BackupName, string>,
                                     i: nat)
    requires i < |edits| && IsFirst(edits, i)
    ensures edits[i].before.None? ==> edits[i].file !in Undo(project, edits, backups)
    ensures edits[i].before.Some? && (edits[i].file, edits[i].stamp) in backups ==>
      Lookup(Undo(project, edits, backups), edits[i].file) == Some(backups[(edits[i].file, edits[i].stamp)])
    decreases |edits|
  {
    var n := |edits| - 1;
    var p := UndoOne(project, edits[n], backups);
    assert Undo(project, edits, backups) == Undo(p, edits[..n], backups);
    if i == n {
      FirstIsUntouchedBefore(edits, n);
      UndoUntouched(p, edits[..n], backups, edits[n].file);
      hide IsFirst;
      hide Undo;
    } else {
      assert IsFirst(edits[..n], i);
      hide IsFirst;
      hide Undo;
      UndoFirst(p, edits[..n], backups, i);
    }
  }

  lemma {:induction false} FirstFindsOriginal(g: Guards, project: map<Path, string>, plan: seq<Change>, i: nat)
    requires i < |Edits(g, project, plan)|
    ensures var es := Edits(g, project, plan);
            && es[i].before == Lookup(Replay(project, es[..i]), es[i].file)
            && es[i].file in g.allowed && es[i].file !in g.forbidden
  {
    var earlier := Edits(g, project, plan[..|plan| - 1]);
    if i < |earlier| {
      FirstFindsOriginal(g, project, plan[..|plan| - 1], i);
      assert Edits(g, project, plan)[..i] == earlier[..i];
    } else {
      assert Edits(g, project, plan)[..i] == earlier;
    }
  }

  /** The last position up to n whose edit backed up the same file under the same name as edit i. */
  ghost function LastSameName(edits: seq<Edit>, i: nat, n: nat): (j: nat)
    requires i < n <= |edits| && edits[i].before.Some?
    ensures i <= j < n
    ensures edits[j].file == edits[i].file && edits[j].stamp == edits[i].stamp && edits[j].before.Some?
  {
    if n - 1 == i then i
    else if edits[n - 1].file == edits[i].file && edits[n - 1].stamp == edits[i].stamp
      && edits[n - 1].before.Some? then n - 1
    else LastSameName(edits, i, n - 1)
  }

  /** A backup file holds what the last edit that wrote it had found. */
  lemma {:induction false} BackupHolds(start: map<BackupName, string>, edits: seq<Edit>, i: nat, n: nat)
    requires i < n <= |edits| && edits[i].before.Some?
    ensures var e := edits[LastSameName(edits, i, n)];
            var name := (edits[i].file, edits[i].stamp);
            name in Backups(start, edits[..n]) && Backups(start, edits[..n])[name] == e.before.value
  {
    assert edits[..n][..n - 1] == edits[..n - 1];
    if n - 1 > i {
      BackupHolds(start, edits, i, n - 1);
    }
  }

  /** No file's first backup is overwritten, later in the same second, by a text that had already changed. */
  ghost predicate FirstBackupsSurvive(edits: seq<Edit>) {
    forall i | 0 <= i < |edits| && IsFirst(edits, i) && edits[i].before.Some? ::
      edits[LastSameName(edits, i, |edits|)].before == edits[i].before
  }

  lemma RestoredFile(g: Guards, project: map<Path, string>, backups: map<BackupName, string>, plan: seq<Change>, i: nat)
    requires i < |Edits(g, project, plan)| && IsFirst(Edits(g, project, plan), i)
    ensures var es := Edits(g, project, plan);
            var undone := Undo(Replay(project, es), es, Backups(backups, es));
            && Lookup(project, es[i].file) == es[i].before
            && (es[i].before.None? ==> Lookup(undone, es[i].file) == None)
            && (es[i].before.Some? ==>
                  Lookup(undone, es[i].file) == es[LastSameName(es, i, |es|)].before)
  {
    var es := Edits(g, project, plan);
    FirstFindsOriginal(g, project, plan, i);
    assert !Touches(es[..i], es[i].file);
    UntouchedStays(project, es[..i], es[i].file);
    UndoResult(Replay(project, es), es, Backups(backups, es), es[i].file);
    if es[i].before.Some? {
      BackupHolds(backups, es, i, |es|);
      assert es[..|es|] == es;
    }
  }

  lemma FirstTouch(edits: seq<Edit>, file: Path) returns (i: nat)
    requires Touches(edits, file)
    ensures i < |edits| && edits[i].file == file && IsFirst(edits, i)
  {
    i :| 0 <= i < |edits| && edits[i].file == file;
    while !IsFirst(edits, i)
      invariant i < |edits| && edits[i].file == file
      decreases i
    {
      var k :| 0 <= k < i && edits[k].file == file;
      i := k;
    }
  }

  lemma MapsAgree(p: map<Path, string>, q: map<Path, string>)
    requires forall file :: Lookup(p, file) == Lookup(q, file)
    ensures p == q
  {
    forall file
      ensures file in p <==> file in q
      ensures file in p ==> p[file] == q[file]
    {
      assert Lookup(p, file) == Lookup(q, file);
    }
  }

  lemma SurvivingBackupsRestore(g: Guards, project: map<Path, string>, backups: map<BackupName, string>,
                                plan: seq<Change>)
    requires FirstBackupsSurvive(Edits(g, project, plan))
    ensures var es := Edits(g, project, plan);
            Undo(Replay(project, es), es, Backups(backups, es)) == project
  {
    var es := Edits(g, project, plan);
    var undone := Undo(Replay(project, es), es, Backups(backups, es));
    forall file
      ensures Lookup(undone, file) == Lookup(project, file)
    {
      if Touches(es, file) {
        var i := FirstTouch(es, file);
        RestoredFile(g, project, backups, plan, i);
      } else {
        UndoResult(Replay(project, es), es, Backups(backups, es), file);
        UntouchedStays(project, es, file);
      }
    }
    MapsAgree(undone, project);
  }

  /** A failed compile leaves every project file exactly as it was, if and only if no file's first backup was
      overwritten in the same second after its text had changed. */
  lemma RollbackIsExact(g: Guards, project: map<Path, string>, backups: map<BackupName, string>, plan: seq<Change>)
    requires !Compiles(g, Replay(project, Edits(g, project, plan)), Edits(g, project, plan))
    ensures Outcome(g, project, backups, Edits(g, project, plan)) == project
       <==> FirstBackupsSurvive(Edits(g, project, plan))
  {
    var es := Edits(g, project, plan);
    if FirstBackupsSurvive(es) {
      SurvivingBackupsRestore(g, project, backups, plan);
    } else {
      var i :| 0 <= i < |es| && IsFirst(es, i) && es[i].before.Some?
               && es[LastSameName(es, i, |es|)].before != es[i].before;
      RestoredFile(g, project, backups, plan, i);
    }
  }

  /** A first edit's backup name that no later edit of that file reuses is enough. */
  lemma FreshNamesSurvive(edits: seq<Edit>)
    requires forall i, j | 0 <= i < j < |edits| && IsFirst(edits, i) && edits[i].file == edits[j].file ::
               edits[i].stamp != edits[j].stamp
    ensures FirstBackupsSurvive(edits)
  {
  }

  /** Kept or rolled back, a plan changes no file outside the whitelist and no forbidden one. */
  lemma OnlyWhitelistedFilesChange(g: Guards, project: map<Path, string>, backups: map<BackupName, string>,
                                   plan: seq<Change>, file: Path)
    requires Lookup(Outcome(g, project, backups, Edits(g, project, plan)), file) != Lookup(project, file)
    ensures file in g.allowed && file !in g.forbidden
  {
    var es := Edits(g, project, plan);
    if Touches(es, file) {
      var i := FirstTouch(es, file);
      FirstFindsOriginal(g, project, plan, i);
    } else {
      UntouchedStays(project, es, file);
      UndoResult(Replay(project, es), es, Backups(backups, es), file);
    }
  }

  const ANYTHING_GOES := Guards({}, {"a.py"}, (f, t) => false, t => 0, t => false)
  const TWO_APPENDS := [Change("a.py", Append, "", "y", 7), Change("a.py", Append, "", "z", 7)]
  const A_FILE: map<Path, string> := map["a.py" := "x"]

  lemma TwoAppendsEdits() returns (e1: Edit, e2: Edit)
    ensures e1 == Edit("a.py", 7, Some("x"), e1.after) && e2 == Edit("a.py", 7, Some(e1.after), e2.after)
    ensures |e1.after| > 1
    ensures Edits(ANYTHING_GOES, A_FILE, TWO_APPENDS) == [e1, e2]
    ensures "a.py" in Replay(A_FILE, [e1, e2])
  {
    e1 := Edit("a.py", 7, Some("x"), "x" + "\n" + "y");
    e2 := Edit("a.py", 7, Some(e1.after), e1.after + "\n" + "z");
    assert PassesGuards(ANYTHING_GOES, TWO_APPENDS[0]) && PassesGuards(ANYTHING_GOES, TWO_APPENDS[1]);
    EditsStep(ANYTHING_GOES, A_FILE, TWO_APPENDS, 0);
    EditsStep(ANYTHING_GOES, A_FILE, TWO_APPENDS, 1);
    assert TWO_APPENDS[..0] == [] && TWO_APPENDS[..2] == TWO_APPENDS;
    ReplaySnoc(A_FILE, [], e1);
    ReplaySnoc(A_FILE, [e1], e2);
    assert [] + [e1] == [e1] && [e1] + [e2] == [e1, e2];
  }

  /** Two changes to one file within one second share a backup name, and a rollback then loses the original. */
  lemma SameSecondLosesOriginal()
    ensures var es := Edits(ANYTHING_GOES, A_FILE, TWO_APPENDS);
            && !Compiles(ANYTHING_GOES, Replay(A_FILE, es), es)
            && Outcome(ANYTHING_GOES, A_FILE, map[], es) != A_FILE
  {
    var e1, e2 := TwoAppendsEdits();
    hide Edits;
    hide Replay;
    hide Outcome;
    var es := [e1, e2];
    assert !FileCompiles(ANYTHING_GOES, Replay(A_FILE, es), es[0].file);
    assert IsFirst(es, 0) && LastSameName(es, 0, 2) == 1;
    RollbackIsExact(ANYTHING_GOES, A_FILE, map[], TWO_APPENDS);
  }

  // ----- What is kept -----

  lemma {:induction false} LastEditStays(project: map<Path, string>, edits: seq<Edit>, i: nat)
    requires i < |edits| && forall k | i < k < |edits| :: edits[k].file != edits[i].file
    ensures edits[i].file in Replay(project, edits) && Replay(project, edits)[edits[i].file] == edits[i].after
  {
    var n := |edits| - 1;
    if i < n {
      LastEditStays(project, edits[..n], i);
    }
  }

  lemma {:induction false} UneditedStays(project: map<Path, string>, edits: seq<Edit>, file: Path)
    requires forall e | e in edits :: e.file != file
    ensures Lookup(Replay(project, edits), file) == Lookup(project, file)
  {
    if edits != [] {
      UneditedStays(project, edits[..|edits| - 1], file);
      assert edits[|edits| - 1] in edits;
    }
  }

  /** If every edited file whose name ends in .py compiles, each edited file keeps the text of its last edit. */
  lemma CompilingIsKept(g: Guards, project: map<Path, string>, backups: map<BackupName, string>, edits: seq<Edit>,
                        i: nat)
    requires i < |edits| && forall k | i < k < |edits| :: edits[k].file != edits[i].file
    requires forall e | e in edits && |e.file| >= 3 && e.file[|e.file| - 3..] == ".py"
                        && e.file in Replay(project, edits) :: g.compiles(Replay(project, edits)[e.file])
    ensures edits[i].file in Outcome(g, project, backups, edits)
    ensures Outcome(g, project, backups, edits)[edits[i].file] == edits[i].after
  {
    LastEditStays(project, edits, i);
    assert forall k | 0 <= k < |edits| :: edits[k] in edits;
    assert Compiles(g, Replay(project, edits), edits);
    hide Replay;
    hide Undo;
    hide Backups;
  }
}
