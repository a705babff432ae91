// The include line in Waydroid's main configuration and the managed file it names: editing the
// text, and the order of the writes (crates/wroid-inject/src/waydroid_bridge.rs). Trimming of
// white space is a parameter; file modes and UTF-8 are left out.

module BridgeConfig {
  import opened Wrappers

  // ---------------------------------------------------------------------------------------
  // Lines of text

  function LineEnd(text: string): (k: nat)
    ensures k <= |text|
    ensures k < |text| ==> text[k] == '\n'
    ensures '\n' !in text[..k]
  {
    if text == "" || text[0] == '\n' then 0
    else
      var k := LineEnd(text[1..]);
      assert text[..k + 1] == [text[0]] + text[1..][..k];
      k + 1
  }

  function StripReturn(line: string): string {
    if line != "" && line[|line| - 1] == '\r' then line[..|line| - 1] else line
  }

  // str::lines
  function Lines(text: string): seq<string>
    decreases |text|
  {
    if text == "" then []
    else
      var k := LineEnd(text);
      if k == |text| then [text] else [StripReturn(text[..k])] + Lines(text[k + 1..])
  }

  function Unlines(lines: seq<string>): string {
    if lines == [] then "" else lines[0] + "\n" + Unlines(lines[1..])
  }

  function Join(lines: seq<string>): string {
    if lines == [] then ""
    else if |lines| == 1 then lines[0]
    else lines[0] + "\n" + Join(lines[1..])
  }

  // trim_end_matches('\n')
  function TrimNewlines(text: string): (r: string)
    ensures r <= text
    ensures r == "" || r[|r| - 1] != '\n'
    decreases |text|
  {
    if text != "" && text[|text| - 1] == '\n' then TrimNewlines(text[..|text| - 1]) else text
  }

  predicate HasInclude(text: string, line: string, trim: string -> string) {
    exists k | 0 <= k < |Lines(text)| :: trim(Lines(text)[k]) == line
  }

  function Kept(lines: seq<string>, line: string, trim: string -> string): (r: seq<string>)
    ensures forall k | 0 <= k < |r| :: r[k] in lines && trim(r[k]) != line
  {
    if lines == [] then []
    else (if trim(lines[0]) != line then [lines[0]] else []) + Kept(lines[1..], line, trim)
  }

  function AddInclude(config: string, line: string, trim: string -> string): string {
    if HasInclude(config, line, trim) then config else TrimNewlines(config) + "\n" + line + "\n"
  }

  function RemoveInclude(config: string, line: string, trim: string -> string): string {
    var updated := Join(Kept(Lines(config), line, trim));
    if (config != "" && config[|config| - 1] == '\n') || updated != "" then updated + "\n" else updated
  }

  // Trimming does not care whether a carriage return was stripped before it.
  ghost predicate Sane(trim: string -> string) {
    trim("") == "" && forall l: string :: trim(StripReturn(l)) == trim(l)
  }

  // A line as it stands in the file: one line, and not changed by trimming.
  ghost predicate IsLine(line: string, trim: string -> string) {
    line != "" && '\n' !in line && trim(line) == line && Sane(trim)
  }

  // A text with each line ended by a bare newline.
  function Ended(text: string): string {
    Unlines(Lines(text))
  }

  predicate EndsInNewline(text: string) {
    text != "" && text[|text| - 1] == '\n'
  }

  predicate EndsInOneNewline(text: string) {
    EndsInNewline(text) && (|text| >= 2 ==> text[|text| - 2] != '\n')
  }

  predicate HasCrLf(text: string) {
    exists k | 0 <= k < |text| - 1 :: text[k] == '\r' && text[k + 1] == '\n'
  }

  // ---------------------------------------------------------------------------------------
  // Lines and their concatenation

  lemma LineEndIs(text: string, k: nat)
    requires k <= |text| && '\n' !in text[..k] && (k < |text| ==> text[k] == '\n')
    ensures LineEnd(text) == k
  {
  }

  lemma FirstLine(line: string, rest: string)
    requires '\n' !in line
    ensures Lines(line + "\n" + rest) == [StripReturn(line)] + Lines(rest)
  {
    var text := line + "\n" + rest;
    assert text[..|line|] == line && text[|line| + 1..] == rest;
    LineEndIs(text, |line|);
  }

  lemma CutAt(text: string, k: nat)
    requires k < |text| && text[k] == '\n'
    ensures text == text[..k] + "\n" + text[k + 1..]
  {
  }

  lemma Regroup(front: string, rest: string, more: string)
    ensures front + "\n" + rest + more == front + "\n" + (rest + more)
  {
  }

  lemma Associate(a: seq<string>, b: seq<string>, c: seq<string>)
    ensures a + (b + c) == a + b + c
  {
  }

  // A text with a newline in it, taken apart at the first one.
  lemma FrontLine(text: string)
    requires LineEnd(text) < |text|
    ensures var k := LineEnd(text);
            && text == text[..k] + "\n" + text[k + 1..] && '\n' !in text[..k]
            && Lines(text) == [StripReturn(text[..k])] + Lines(text[k + 1..])
  {
    hide *;
    var k := LineEnd(text);
    CutAt(text, k);
    FirstLine(text[..k], text[k + 1..]);
  }

  lemma EndedHasLineEnd(text: string)
    requires EndsInNewline(text)
    ensures LineEnd(text) < |text|
    ensures text[LineEnd(text) + 1..] == "" || EndsInNewline(text[LineEnd(text) + 1..])
  {
  }

  ghost predicate OneLineEach(lines: seq<string>) {
    forall k | 0 <= k < |lines| :: '\n' !in lines[k]
  }

  lemma {:induction false} LinesAreLines(text: string)
    ensures OneLineEach(Lines(text))
    decreases |text|
  {
    if text != "" {
      var k := LineEnd(text);
      if k == |text| {
        assert text[..k] == text;
      } else {
        LinesAreLines(text[k + 1..]);
      }
    }
  }

  // Reading lines that were written gives them back, each without a carriage return at its end.
  lemma {:induction false} LinesOfUnlines(lines: seq<string>)
    requires OneLineEach(lines)
    ensures |Lines(Unlines(lines))| == |lines|
    ensures forall k | 0 <= k < |lines| :: Lines(Unlines(lines))[k] == StripReturn(lines[k])
  {
    if lines != [] {
      hide StripReturn;
      FirstLine(lines[0], Unlines(lines[1..]));
      LinesOfUnlines(lines[1..]);
      assert forall k | 1 <= k < |lines| :: lines[k] == lines[1..][k - 1];
    }
  }

  lemma {:induction false} LinesConcat(a: string, b: string)
    requires a == "" || EndsInNewline(a)
    ensures Lines(a + b) == Lines(a) + Lines(b)
    decreases |a|
  {
    if a == "" {
      assert a + b == b;
    } else {
      hide *;
      EndedHasLineEnd(a);
      FrontLine(a);
      var front, rest := a[..LineEnd(a)], a[LineEnd(a) + 1..];
      LinesConcat(rest, b);
      FirstLine(front, rest + b);
      Regroup(front, rest, b);
      Associate([StripReturn(front)], Lines(rest), Lines(b));
    }
  }

  lemma {:induction false} UnlinesConcat(a: seq<string>, b: seq<string>)
    ensures Unlines(a + b) == Unlines(a) + Unlines(b)
  {
    if a == [] {
      assert a + b == b;
    } else {
      assert (a + b)[0] == a[0] && (a + b)[1..] == a[1..] + b;
      UnlinesConcat(a[1..], b);
    }
  }

  lemma {:induction false} JoinIsUnlines(lines: seq<string>)
    requires lines != []
    ensures Join(lines) + "\n" == Unlines(lines)
  {
    if |lines| == 1 {
      assert Unlines(lines[1..]) == "";
    } else {
      JoinIsUnlines(lines[1..]);
    }
  }

  lemma {:induction false} UnlinesEnds(lines: seq<string>)
    requires lines != []
    ensures EndsInNewline(Unlines(lines))
  {
    if |lines| > 1 {
      UnlinesEnds(lines[1..]);
    } else {
      assert Unlines(lines[1..]) == "";
    }
  }

  lemma {:induction false} KeptConcat(a: seq<string>, b: seq<string>, line: string, trim: string -> string)
    ensures Kept(a + b, line, trim) == Kept(a, line, trim) + Kept(b, line, trim)
  {
    if a == [] {
      assert a + b == b;
    } else {
      assert (a + b)[0] == a[0] && (a + b)[1..] == a[1..] + b;
      KeptConcat(a[1..], b, line, trim);
    }
  }

  // No line answers to the include.
  ghost predicate NoneMatches(lines: seq<string>, line: string, trim: string -> string) {
    forall k | 0 <= k < |lines| :: trim(lines[k]) != line
  }

  lemma {:induction false} KeptAll(lines: seq<string>, line: string, trim: string -> string)
    requires NoneMatches(lines, line, trim)
    ensures Kept(lines, line, trim) == lines
  {
    if lines != [] {
      KeptAll(lines[1..], line, trim);
      assert lines == [lines[0]] + lines[1..];
    }
  }

  // Ending a text strips at most a carriage return off its last line.
  lemma {:induction false} EndedLines(text: string)
    requires text != "" && !EndsInNewline(text)
    ensures |Lines(text + "\n")| == |Lines(text)|
    ensures forall k | 0 <= k < |Lines(text)| ::
              Lines(text + "\n")[k] == Lines(text)[k] || Lines(text + "\n")[k] == StripReturn(Lines(text)[k])
    decreases |text|
  {
    var k := LineEnd(text);
    if k == |text| {
      assert text[..k] == text && text + "\n" + "" == text + "\n";
      FirstLine(text, "");
    } else {
      hide *;
      FrontLine(text);
      var front, rest := text[..k], text[k + 1..];
      LastStays(front, rest);
      Regroup(front, rest, "\n");
      FirstLine(front, rest + "\n");
      EndedLines(rest);
    }
  }

  lemma LastStays(front: string, rest: string)
    requires !EndsInNewline(front + "\n" + rest)
    ensures rest != "" && !EndsInNewline(rest)
  {
  }

  lemma {:induction false} TrimmedIsPrefix(text: string)
    requires EndsInNewline(text)
    ensures TrimNewlines(text) + "\n" <= text
    decreases |text|
  {
    var shorter := text[..|text| - 1];
    assert text == shorter + "\n";
    if EndsInNewline(shorter) {
      TrimmedIsPrefix(shorter);
    }
  }

  // Where nothing answers to the include, nothing does once the end is one newline.
  lemma BaseLines(config: string, line: string, trim: string -> string)
    requires IsLine(line, trim) && !HasInclude(config, line, trim)
    ensures NoneMatches(Lines(TrimNewlines(config) + "\n"), line, trim)
  {
    hide Lines, TrimNewlines, StripReturn;
    var base := TrimNewlines(config) + "\n";
    if EndsInNewline(config) {
      TrimmedIsPrefix(config);
      LinesConcat(base, config[|base|..]);
      assert config == base + config[|base|..];
      assert forall k | 0 <= k < |Lines(base)| :: Lines(base)[k] == Lines(config)[k];
    } else if config == "" {
      EmptyLines();
      assert base == "\n";
    } else {
      assert TrimNewlines(config) == config by { NothingToTrim(config); }
      EndedLines(config);
    }
  }

  lemma NothingToTrim(text: string)
    requires !EndsInNewline(text)
    ensures TrimNewlines(text) == text
  {
  }

  // ---------------------------------------------------------------------------------------
  // What ending every line changes

  lemma {:induction false} EndedIsShorter(text: string)
    requires text == "" || EndsInNewline(text)
    ensures |Ended(text)| <= |text|
    ensures |Ended(text)| == |text| ==> Ended(text) == text && !HasCrLf(text)
    ensures !HasCrLf(text) ==> Ended(text) == text
    decreases |text|
  {
    if text != "" {
      hide Lines, LineEnd, HasCrLf;
      EndedHasLineEnd(text);
      FrontLine(text);
      var front, rest := text[..LineEnd(text)], text[LineEnd(text) + 1..];
      EndedIsShorter(rest);
      CrLfParts(front, rest);
    }
  }

  lemma CrLfParts(front: string, rest: string)
    requires '\n' !in front
    ensures HasCrLf(front + "\n" + rest) <==> StripReturn(front) != front || HasCrLf(rest)
  {
    var text := front + "\n" + rest;
    assert text[|front|] == '\n' && text[|front| + 1..] == rest;
    if HasCrLf(rest) {
      var k :| 0 <= k < |rest| - 1 && rest[k] == '\r' && rest[k + 1] == '\n';
      assert text[|front| + 1 + k] == '\r' && text[|front| + 1 + k + 1] == '\n';
    }
    if StripReturn(front) != front {
      assert text[|front| - 1] == '\r' && text[|front| - 1 + 1] == '\n';
    }
    if HasCrLf(text) {
      var k :| 0 <= k < |text| - 1 && text[k] == '\r' && text[k + 1] == '\n';
      if k > |front| {
        assert rest[k - |front| - 1] == '\r' && rest[k - |front| - 1 + 1] == '\n';
      }
    }
  }

  // ---------------------------------------------------------------------------------------
  // The two edits

  // Adding puts one line behind the ended text.
  lemma AddedLines(config: string, extra: string, line: string, trim: string -> string)
    requires IsLine(line, trim) && !HasInclude(config, line, trim)
    ensures Lines(AddInclude(config, line, trim) + extra)
         == Lines(TrimNewlines(config) + "\n") + [StripReturn(line)] + Lines(extra)
  {
    hide Lines, TrimNewlines, StripReturn, HasInclude;
    var base := TrimNewlines(config) + "\n";
    LinesConcat(base, line + "\n" + extra);
    FirstLine(line, extra);
    assert AddInclude(config, line, trim) + extra == base + (line + "\n" + extra);
  }

  // The include is there after adding it, and nothing answers to it after removing it.
  lemma AddedIsThere(config: string, line: string, trim: string -> string)
    requires IsLine(line, trim)
    ensures HasInclude(AddInclude(config, line, trim), line, trim)
  {
    hide Lines, TrimNewlines, StripReturn;
    if !HasInclude(config, line, trim) {
      AddedLines(config, "", line, trim);
      var added := AddInclude(config, line, trim);
      assert added + "" == added;
      assert Lines(added)[|Lines(TrimNewlines(config) + "\n")|] == StripReturn(line);
    }
  }

  lemma RemovedIsGone(config: string, line: string, trim: string -> string)
    requires IsLine(line, trim)
    ensures !HasInclude(RemoveInclude(config, line, trim), line, trim)
  {
    hide Lines, StripReturn, Unlines;
    var kept := Kept(Lines(config), line, trim);
    LinesAreLines(config);
    assert OneLineEach(kept) by {
      forall k | 0 <= k < |kept| ensures '\n' !in kept[k] {
        assert kept[k] in Lines(config);
      }
    }
    LinesOfUnlines(kept);
    EmptyLines();
    var removed := RemoveInclude(config, line, trim);
    if kept != [] {
      JoinIsUnlines(kept);
      assert removed == "" || removed == Unlines(kept);
    } else {
      assert removed == "" || removed == "\n";
    }
    forall k | 0 <= k < |Lines(removed)| ensures trim(Lines(removed)[k]) != line {
    }
  }

  // From a text without the include nothing is removed; its lines are only ended by bare newlines.
  lemma RemoveElsewhere(config: string, line: string, trim: string -> string)
    requires !HasInclude(config, line, trim)
    ensures RemoveInclude(config, line, trim) == Ended(config)
  {
    hide Lines, Unlines, Join, Kept;
    EmptyLines();
    KeptAll(Lines(config), line, trim);
    if config == "" {
      NothingJoined();
    } else {
      HasALine(config);
      UnendedIsSome(config);
      JoinIsUnlines(Lines(config));
    }
  }

  lemma NothingJoined()
    ensures Join([]) == Unlines([]) == ""
  {
  }

  lemma UnendedIsSome(text: string)
    ensures text != "" && !EndsInNewline(text) ==> Join(Lines(text)) != ""
  {
  }

  lemma EmptyLines()
    ensures Lines("") == [] && Lines("\n") == [""]
  {
  }

  // Removing the include after adding it, with any text appended in between that does not answer to
  // it, leaves the text that was there, ended by one newline, and the appended one, each with its
  // lines ended by bare newlines.
  lemma RemoveAfterAdd(config: string, extra: string, line: string, trim: string -> string)
    requires IsLine(line, trim) && !HasInclude(config, line, trim) && !HasInclude(extra, line, trim)
    ensures RemoveInclude(AddInclude(config, line, trim) + extra, line, trim)
         == Ended(TrimNewlines(config) + "\n") + Ended(extra)
  {
    hide Lines, Unlines, TrimNewlines, Kept, StripReturn;
    var base := TrimNewlines(config) + "\n";
    AddedLines(config, extra, line, trim);
    BaseLines(config, line, trim);
    var lines := Lines(base) + Lines(extra);
    KeptAround(Lines(base), Lines(extra), StripReturn(line), line, trim);
    UnlinesConcat(Lines(base), Lines(extra));
    assert Lines(base) != [] by {
      assert base[..|base|] == base;
      HasALine(base);
    }
    JoinIsUnlines(lines);
    AddedEnds(config, extra, line, trim);
    if extra != "" {
      HasALine(extra);
    }
    assert Join(lines) != "" || EndsInNewline(AddInclude(config, line, trim) + extra);
  }

  lemma HasALine(text: string)
    requires text != ""
    ensures Lines(text) != []
  {
  }

  // Whatever is appended, something is left to end.
  lemma AddedEnds(config: string, extra: string, line: string, trim: string -> string)
    requires IsLine(line, trim) && !HasInclude(config, line, trim)
    ensures var added := AddInclude(config, line, trim) + extra;
            EndsInNewline(added) || (extra != "" && !EndsInNewline(extra))
  {
  }

  lemma KeptAround(a: seq<string>, b: seq<string>, added: string, line: string, trim: string -> string)
    requires trim(added) == line && NoneMatches(a, line, trim) && NoneMatches(b, line, trim)
    ensures Kept(a + [added] + b, line, trim) == a + b
  {
    KeptConcat(a + [added], b, line, trim);
    KeptConcat(a, [added], line, trim);
    assert Kept([added], line, trim) == [];
    hide Kept, NoneMatches;
    KeptAll(a, line, trim);
    KeptAll(b, line, trim);
    assert a + [] == a;
  }

  // So removing undoes adding exactly for texts that end in one newline and have no line that ends in
  // a carriage return.
  lemma RemoveUndoesAdd(config: string, line: string, trim: string -> string)
    requires IsLine(line, trim) && !HasInclude(config, line, trim)
    ensures RemoveInclude(AddInclude(config, line, trim), line, trim) == config
       <==> EndsInOneNewline(config) && !HasCrLf(config)
  {
    EmptyLines();
    assert !HasInclude("", line, trim);
    hide Lines, Unlines, TrimNewlines, HasCrLf, RemoveInclude, AddInclude, HasInclude;
    RemoveAfterAdd(config, "", line, trim);
    var base := TrimNewlines(config) + "\n";
    assert AddInclude(config, line, trim) + "" == AddInclude(config, line, trim);
    EndedIsShorter(base);
    OneNewline(config);
    UnlinesEnds(Lines(base));
  }

  lemma OneNewline(text: string)
    ensures TrimNewlines(text) + "\n" == text <==> EndsInOneNewline(text)
    ensures EndsInNewline(text) ==> |TrimNewlines(text)| + 1 <= |text|
    ensures EndsInNewline(text) && |TrimNewlines(text)| + 1 == |text| ==> TrimNewlines(text) + "\n" == text
  {
  }

  // ---------------------------------------------------------------------------------------
  // Files

  datatype OnDisk = OnDisk(main: string, managed: Option<string>)

  // The include names a file that exists.
  ghost predicate Consistent(disk: OnDisk, line: string, trim: string -> string) {
    HasInclude(disk.main, line, trim) ==> disk.managed.Some?
  }

  class ConfigFiles {
    var disk: OnDisk
    // Every state the disk went through.
    ghost var trace: seq<OnDisk>
    // How often the main configuration could not be read or written, and the managed file not be replaced.
    ghost var mainRefused: nat
    ghost var managedRefused: nat

    ghost function Refused(): nat
      reads this
    {
      mainRefused + managedRefused
    }

    constructor (disk: OnDisk)
      ensures this.disk == disk && trace == [] && Refused() == 0
    {
      this.disk, trace, mainRefused, managedRefused := disk, [], 0, 0;
    }

    method CanRead() returns (ok: bool)
      modifies this`mainRefused
      ensures mainRefused == old(mainRefused) + (if ok then 0 else 1)
    {
      ok := *;
      mainRefused := mainRefused + if ok then 0 else 1;
    }

    // atomic_write: the new contents or the old, never anything in between.
    method WriteMain(text: string) returns (ok: bool)
      modifies this
      ensures disk == if ok then old(disk).(main := text) else old(disk)
      ensures trace == old(trace) + [disk]
      ensures mainRefused == old(mainRefused) + (if ok then 0 else 1) && managedRefused == old(managedRefused)
    {
      ok := *;
      mainRefused := mainRefused + if ok then 0 else 1;
      if ok {
        disk := disk.(main := text);
      }
      trace := trace + [disk];
    }

    method WriteManaged(text: string) returns (ok: bool)
      modifies this
      ensures disk == if ok then old(disk).(managed := Some(text)) else old(disk)
      ensures trace == old(trace) + [disk]
      ensures managedRefused == old(managedRefused) + (if ok then 0 else 1) && mainRefused == old(mainRefused)
    {
      ok := *;
      managedRefused := managedRefused + if ok then 0 else 1;
      if ok {
        disk := disk.(managed := Some(text));
      }
      trace := trace + [disk];
    }

    // remove_file_if_exists
    method RemoveManaged() returns (ok: bool)
      modifies this
      ensures disk == if ok then old(disk).(managed := None) else old(disk)
      ensures old(disk).managed.None? ==> ok
      ensures trace == old(trace) + [disk]
      ensures managedRefused == old(managedRefused) + (if ok then 0 else 1) && mainRefused == old(mainRefused)
    {
      ok := *;
      ok := ok || disk.managed.None?;
      managedRefused := managedRefused + if ok then 0 else 1;
      if ok {
        disk := disk.(managed := None);
      }
      trace := trace + [disk];
    }

    // restore_managed_file
    method RestoreManaged(original: Option<string>) returns (ok: bool)
      modifies this
      ensures disk == if ok then old(disk).(managed := original) else old(disk)
      ensures trace == old(trace) + [disk]
      ensures managedRefused == old(managedRefused) + (if ok then 0 else 1) && mainRefused == old(mainRefused)
    {
      match original
      case Some(contents) => ok := WriteManaged(contents);
      case None => ok := RemoveManaged();
    }
  }

  ghost predicate AlwaysConsistent(trace: seq<OnDisk>, line: string, trim: string -> string) {
    forall k | 0 <= k < |trace| :: Consistent(trace[k], line, trim)
  }

  lemma StillConsistent(trace: seq<OnDisk>, before: OnDisk, after: OnDisk, line: string, trim: string -> string)
    requires AlwaysConsistent(trace, line, trim) && Consistent(before, line, trim)
    requires after == before || after.managed.Some? || !HasInclude(after.main, line, trim)
    ensures Consistent(after, line, trim) && AlwaysConsistent(trace + [after], line, trim)
  {
    hide HasInclude;
  }

  // What an installed bridge remembers.
  datatype Installed = Installed(original: Option<string>, includeAdded: bool)

  // install: the managed file first, then the include, and the managed file back if that fails. A
  // crash at any point, and any error, leaves the include and the file consistent.
  method Install(files: ConfigFiles, contents: string, line: string, trim: string -> string)
    returns (r: Option<Installed>)
    requires IsLine(line, trim)
    requires AlwaysConsistent(files.trace, line, trim) && Consistent(files.disk, line, trim)
    modifies files
    ensures AlwaysConsistent(files.trace, line, trim) && Consistent(files.disk, line, trim)
    ensures r.Some? ==>
              && r.value == Installed(old(files.disk).managed, !HasInclude(old(files.disk).main, line, trim))
              && files.disk == OnDisk(AddInclude(old(files.disk).main, line, trim), Some(contents))
              && HasInclude(files.disk.main, line, trim)
    ensures r.None? ==> files.disk.main == old(files.disk).main
    // It fails only if something was refused; and if nothing else was, the disk is as it was.
    ensures r.Some? <==> files.Refused() == old(files.Refused())
    ensures files.Refused() == old(files.Refused()) + 1 ==> files.disk == old(files.disk)
    ensures old(files.Refused()) <= files.Refused() <= old(files.Refused()) + 2
    ensures files.mainRefused >= old(files.mainRefused) && files.managedRefused >= old(files.managedRefused)
  {
    var readable := files.CanRead();
    if !readable {
      return None;
    }
    var original, main := files.disk.managed, files.disk.main;
    var updated := AddInclude(main, line, trim);
    var includeAdded := updated != main;
    AddedIsThere(main, line, trim);
    assert HasInclude(main, line, trim) ==> updated == main;
    hide HasInclude, AddInclude, AlwaysConsistent, Consistent;
    var written := files.WriteManaged(contents);
    StillConsistent(old(files.trace), old(files.disk), files.disk, line, trim);
    if !written {
      return None;
    }
    ghost var trace, disk := files.trace, files.disk;
    if includeAdded {
      written := files.WriteMain(updated);
      StillConsistent(trace, disk, files.disk, line, trim);
      if !written {
        trace, disk := files.trace, files.disk;
        var _ := files.RestoreManaged(original);
        StillConsistent(trace, disk, files.disk, line, trim);
        return None;
      }
    }
    return Some(Installed(original, includeAdded));
  }

  // remove_managed_include
  method RemoveManagedInclude(files: ConfigFiles, line: string, trim: string -> string) returns (ok: bool)
    requires IsLine(line, trim)
    modifies files
    ensures files.disk.managed == old(files.disk).managed
    ensures files.disk.main == if ok then RemoveInclude(old(files.disk).main, line, trim) else old(files.disk).main
    ensures old(files.trace) <= files.trace
    ensures forall k | |old(files.trace)| <= k < |files.trace| :: files.trace[k] == files.disk
    ensures files.mainRefused == old(files.mainRefused) + (if ok then 0 else 1)
    ensures files.managedRefused == old(files.managedRefused)
  {
    var readable := files.CanRead();
    if !readable {
      return false;
    }
    var updated := RemoveInclude(files.disk.main, line, trim);
    ok := true;
    if updated != files.disk.main {
      ok := files.WriteMain(updated);
    }
  }

  // restore: the include first, then the managed file, which is put back even when the include
  // could not be removed. Exactly in that case the include may be left dangling.
  method Restore(files: ConfigFiles, installed: Installed, line: string, trim: string -> string)
    returns (mainOk: bool, managedOk: bool)
    requires IsLine(line, trim)
    requires installed.includeAdded || installed.original.Some?
    modifies files
    ensures old(files.trace) <= files.trace
    ensures !installed.includeAdded ==> mainOk && files.disk.main == old(files.disk).main
    ensures installed.includeAdded && mainOk ==>
              files.disk.main == RemoveInclude(old(files.disk).main, line, trim)
                  && !HasInclude(files.disk.main, line, trim)
    ensures !mainOk ==> files.disk.main == old(files.disk).main
    ensures files.disk.managed == if managedOk then installed.original else old(files.disk).managed
    ensures old(Consistent(files.disk, line, trim)) && mainOk ==>
              AlwaysConsistent(files.trace[|old(files.trace)|..], line, trim) && Consistent(files.disk, line, trim)
    ensures old(Consistent(files.disk, line, trim)) ==>
              (Consistent(files.disk, line, trim) <==>
                 (mainOk || !managedOk || installed.original.Some? || !HasInclude(files.disk.main, line, trim)))
    ensures files.mainRefused == old(files.mainRefused) + (if mainOk then 0 else 1)
    ensures files.managedRefused == old(files.managedRefused) + (if managedOk then 0 else 1)
  {
    mainOk := true;
    if installed.includeAdded {
      RemovedIsGone(files.disk.main, line, trim);
      mainOk := RemoveManagedInclude(files, line, trim);
    }
    managedOk := files.RestoreManaged(installed.original);
  }

  // cleanup, and the drop that tries once more after an error. The include dangles in the end only
  // if the main configuration could not be written on either attempt.
  method Cleanup(files: ConfigFiles, installed: Installed, line: string, trim: string -> string) returns (ok: bool)
    requires IsLine(line, trim) && Consistent(files.disk, line, trim)
    requires installed.includeAdded || installed.original.Some?
    modifies files
    ensures ok ==> files.disk == OnDisk(if installed.includeAdded then RemoveInclude(old(files.disk).main, line, trim)
                                        else old(files.disk).main, installed.original)
    ensures ok ==> Consistent(files.disk, line, trim)
    ensures !Consistent(files.disk, line, trim) ==>
              && installed.original.None? && files.disk.main == old(files.disk).main
              && files.mainRefused == old(files.mainRefused) + 2
    ensures ok <==> files.Refused() == old(files.Refused())
    ensures files.mainRefused >= old(files.mainRefused) && files.managedRefused >= old(files.managedRefused)
    // One refusal is made up for by the second attempt, which may remove the include from what is left once more.
    ensures files.Refused() == old(files.Refused()) + 1 ==>
              && files.disk.managed == installed.original
              && files.disk.main == (if !installed.includeAdded then old(files.disk).main
                                     else if files.mainRefused > old(files.mainRefused)
                                     then RemoveInclude(old(files.disk).main, line, trim)
                                     else RemoveInclude(RemoveInclude(old(files.disk).main, line, trim), line, trim))
  {
    var mainOk, managedOk := Restore(files, installed, line, trim);
    ok := mainOk && managedOk;
    if !ok {
      var _, _ := Restore(files, installed, line, trim);
    }
  }

  // remove_bridge: stops at the first error, so the include never outlives its file.
  method RemoveBridge(files: ConfigFiles, line: string, trim: string -> string) returns (ok: bool)
    requires IsLine(line, trim)
    requires AlwaysConsistent(files.trace, line, trim) && Consistent(files.disk, line, trim)
    modifies files
    ensures AlwaysConsistent(files.trace, line, trim) && Consistent(files.disk, line, trim)
    ensures ok ==> files.disk.managed.None? && !HasInclude(files.disk.main, line, trim)
    ensures ok <==> files.Refused() == old(files.Refused())
    ensures files.disk.main == if files.mainRefused == old(files.mainRefused)
                               then RemoveInclude(old(files.disk).main, line, trim) else old(files.disk).main
    ensures !ok ==> files.disk.managed == old(files.disk).managed
  {
    RemovedIsGone(files.disk.main, line, trim);
    ok := RemoveManagedInclude(files, line, trim);
    if !ok {
      return;
    }
    ok := files.RemoveManaged();
  }

  // A session's use of the bridge, from installation to cleanup: if both succeed the managed file is
  // the old one again, and so is the main configuration exactly if the include was there before, or
  // the text ended in one newline and had no carriage return at the end of a line.
  method InstallThenCleanup(files: ConfigFiles, contents: string, line: string, trim: string -> string)
    returns (ok: bool)
    requires IsLine(line, trim)
    requires AlwaysConsistent(files.trace, line, trim) && Consistent(files.disk, line, trim)
    modifies files
    ensures ok ==>
              && files.disk.managed == old(files.disk).managed && Consistent(files.disk, line, trim)
              && (files.disk.main == old(files.disk).main
                  <==> || HasInclude(old(files.disk).main, line, trim)
                       || (EndsInOneNewline(old(files.disk).main) && !HasCrLf(old(files.disk).main)))
    ensures ok && files.disk.main != old(files.disk).main ==>
              files.disk.main == Ended(TrimNewlines(old(files.disk).main) + "\n")
    ensures !ok && !Consistent(files.disk, line, trim) ==>
              && old(files.disk).managed.None? && HasInclude(files.disk.main, line, trim)
              && files.mainRefused == old(files.mainRefused) + 2
    // It fails only if something was refused, and a single refusal leaves the managed file as it was.
    ensures ok <==> files.Refused() == old(files.Refused())
    ensures files.Refused() <= old(files.Refused()) + 1 ==>
              files.disk.managed == old(files.disk).managed && Consistent(files.disk, line, trim)
  {
    ghost var main := files.disk.main;
    assert HasInclude(main, line, trim) ==> AddInclude(main, line, trim) == main;
    hide HasInclude, AddInclude, RemoveInclude, EndsInOneNewline, HasCrLf, Ended, TrimNewlines;
    hide AlwaysConsistent, IsLine, Consistent;
    var installed := Install(files, contents, line, trim);
    if installed.None? {
      return false;
    }
    if !HasInclude(main, line, trim) {
      RemoveUndoesAdd(main, line, trim);
      RemovedEnded(main, line, trim);
    }
    ok := Cleanup(files, installed.value, line, trim);
  }

  lemma RemovedEnded(config: string, line: string, trim: string -> string)
    requires IsLine(line, trim) && !HasInclude(config, line, trim)
    ensures RemoveInclude(AddInclude(config, line, trim), line, trim) == Ended(TrimNewlines(config) + "\n")
  {
    EmptyLines();
    assert !HasInclude("", line, trim) && Ended("") == "";
    hide HasInclude, AddInclude, RemoveInclude, Ended, TrimNewlines;
    RemoveAfterAdd(config, "", line, trim);
    assert AddInclude(config, line, trim) + "" == AddInclude(config, line, trim);
  }
}
