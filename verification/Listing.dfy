/** Reading the output of `zfs list` back. */
module Listing {
  import opened Common
  import opened Text
  import opened Paths
  import opened Sorting

  // ---- snapshots ----

  function TrimPrefix(s: string, prefix: string): string {
    if prefix <= s then s[|prefix|..] else s
  }

  /** One line of the listing: nothing for a blank or a one-column line.  `parse` is
      the date parser; it is handed the columns after the first with single blanks. */
  function ParseLine(line: string, dataset: string, parse: string -> int): Option<Info> {
    var fields := Fields(TrimSpace(line));
    if |fields| < 2 then None
    else Some(Info(TrimPrefix(fields[0], dataset + "@"), parse(Join(fields[1..], " "))))
  }

  function ParseLines(lines: seq<string>, dataset: string, parse: string -> int): seq<Info> {
    if lines == [] then []
    else
      var init := ParseLines(lines[..|lines| - 1], dataset, parse);
      match ParseLine(lines[|lines| - 1], dataset, parse)
      case None => init
      case Some(info) => init + [info]
  }

  method ParseSnapshotList(out: string, dataset: string, parse: string -> int) returns (result: seq<Info>)
    ensures result == ParseLines(Lines(out), dataset, parse)
  {
    var lines := Lines(out);
    result := [];
    var i := 0;
    while i < |lines|
      invariant 0 <= i <= |lines| && result == ParseLines(lines[..i], dataset, parse)
    {
      assert lines[..i + 1][..i] == lines[..i];
      var line := TrimSpace(lines[i]);
      i := i + 1;
      if line == "" { continue; }
      var fields := Fields(line);
      if |fields| < 2 { continue; }
      var name := TrimPrefix(fields[0], dataset + "@");
      result := result + [Info(name, parse(Join(fields[1..], " ")))];
    }
    assert lines[..|lines|] == lines;
  }

  /** A line is skipped exactly if, white space at its ends apart, it has none inside. */
  lemma LineExactly(line: string, dataset: string, parse: string -> int)
    ensures ParseLine(line, dataset, parse).None? <==> Solid(TrimSpace(line))
  {
    var _, _ := TrimParts(line);
    FieldsOfTrimmed(TrimSpace(line));
  }

  /** A skipped line counts for nothing, wherever it stands. */
  lemma LineSkipped(front: seq<string>, line: string, back: seq<string>, dataset: string, parse: string -> int)
    requires Solid(TrimSpace(line))
    ensures ParseLines(front + [line] + back, dataset, parse) == ParseLines(front + back, dataset, parse)
  {
    LineExactly(line, dataset, parse);
    NothingAdded(front, line, back, dataset, parse);
  }

  lemma {:induction false} NothingAdded(
      front: seq<string>, line: string, back: seq<string>, dataset: string, parse: string -> int)
    requires ParseLine(line, dataset, parse).None?
    ensures ParseLines(front + [line] + back, dataset, parse) == ParseLines(front + back, dataset, parse)
  {
    if back == [] {
      assert front + [line] + back == front + [line] && front + back == front;
      assert (front + [line])[..|front|] == front;
    } else {
      var init, last := back[..|back| - 1], back[|back| - 1];
      NothingAdded(front, line, init, dataset, parse);
      assert front + [line] + back == (front + [line] + init) + [last] && front + back == (front + init) + [last];
      LastLine(front + [line] + init, last, dataset, parse);
      LastLine(front + init, last, dataset, parse);
    }
  }

  lemma LastLine(lines: seq<string>, last: string, dataset: string, parse: string -> int)
    ensures ParseLines(lines + [last], dataset, parse) == ParseLines(lines, dataset, parse) +
            match ParseLine(last, dataset, parse) { case None => [] case Some(info) => [info] }
  {
    assert (lines + [last])[..|lines|] == lines;
  }

  /** A snapshot as zfs prints it: full name, tab, creation date. */
  function Printed(dataset: string, name: string, date: string): string {
    SnapPath(dataset, name) + "\t" + date
  }

  function PrintedAll(dataset: string, names: seq<string>, dates: seq<string>): seq<string>
    requires |names| == |dates|
  {
    seq(|names|, i requires 0 <= i < |names| => Printed(dataset, names[i], dates[i]))
  }

  /** A date column: not empty, on one line, no white space at its ends. */
  predicate IsDate(date: string) {
    date != [] && Trimmed(date) && '\n' !in date
  }

  /** The snapshots a listing shows, with the dates as the parser sees them. */
  function Shown(names: seq<string>, dates: seq<string>, parse: string -> int): seq<Info>
    requires |names| == |dates|
  {
    seq(|names|, i requires 0 <= i < |names| => Info(names[i], parse(Join(Fields(dates[i]), " "))))
  }

  lemma PrintedLine(dataset: string, name: string, date: string, parse: string -> int)
    requires dataset != [] && Solid(dataset) && Solid(name) && IsDate(date)
    ensures var line := Printed(dataset, name, date); '\n' !in line && Trimmed(line)
    ensures ParseLine(Printed(dataset, name, date), dataset, parse) == Some(Info(name, parse(Join(Fields(date), " "))))
  {
    var path := SnapPath(dataset, name);
    var line := Printed(dataset, name, date);
    assert Solid(path);
    assert line == path + ['\t'] + date;
    assert line[0] == dataset[0] && line[|line| - 1] == date[|date| - 1];
    TrimTrimmed(line);
    FieldsFirst(path, '\t', date);
    assert TrimLeft(date) == date;
    assert Fields(date) != [];
    var fields := Fields(line);
    assert fields[0] == path && fields[1..] == Fields(date);
    assert dataset + "@" <= path && path[|dataset| + 1..] == name;
  }

  /** A listing of whitespace-free names reads back as those names, in order. */
  lemma {:induction false} ListingRoundTrip(dataset: string, names: seq<string>, dates: seq<string>,
      parse: string -> int)
    requires |names| == |dates| && dataset != [] && Solid(dataset)
    requires forall i | 0 <= i < |names| :: Solid(names[i]) && IsDate(dates[i])
    ensures ParseLines(Lines(Unlines(PrintedAll(dataset, names, dates))), dataset, parse) == Shown(names, dates, parse)
  {
    var lines := PrintedAll(dataset, names, dates);
    forall i | 0 <= i < |lines| ensures '\n' !in lines[i] && Trimmed(lines[i]) {
      PrintedLine(dataset, names[i], dates[i], parse);
    }
    LinesUnlines(lines);
    ParsedPrefix(dataset, names, dates, parse, |names|);
    assert lines[..|names|] == lines;
  }

  lemma {:induction false} ParsedPrefix(dataset: string, names: seq<string>, dates: seq<string>, parse: string -> int,
      n: nat)
    requires |names| == |dates| && dataset != [] && Solid(dataset) && n <= |names|
    requires forall i | 0 <= i < |names| :: Solid(names[i]) && IsDate(dates[i])
    ensures ParseLines(PrintedAll(dataset, names, dates)[..n], dataset, parse) == Shown(names, dates, parse)[..n]
  {
    if n == 0 {
    } else {
      var lines := PrintedAll(dataset, names, dates);
      ParsedPrefix(dataset, names, dates, parse, n - 1);
      PrintedLine(dataset, names[n - 1], dates[n - 1], parse);
      assert lines[..n][..n - 1] == lines[..n - 1];
      assert Shown(names, dates, parse)[..n] == Shown(names, dates, parse)[..n - 1]
          + [Shown(names, dates, parse)[n - 1]];
    }
  }

  // ---- clones ----

  function CloneNames(lines: seq<string>, root: string): seq<string> {
    if lines == [] then []
    else
      var init := CloneNames(lines[..|lines| - 1], root);
      var name := TrimSpace(lines[|lines| - 1]);
      if name == root then init else init + [LastPart(name)]
  }

  /** The loop of ListClones over the recursive listing of the branches dataset. */
  method ParseCloneList(out: string, dataset: string) returns (result: seq<string>)
    ensures result == CloneNames(Lines(out), dataset + "/branches")
  {
    var root, lines := dataset + "/branches", Lines(out);
    result := [];
    var i := 0;
    while i < |lines|
      invariant 0 <= i <= |lines| && result == CloneNames(lines[..i], root)
    {
      assert lines[..i + 1][..i] == lines[..i];
      var name := TrimSpace(lines[i]);
      i := i + 1;
      if name == root { continue; }
      result := result + [LastPart(name)];
    }
    assert lines[..|lines|] == lines;
  }

  function ClonePaths(dataset: string, clones: seq<string>): seq<string> {
    seq(|clones|, i requires 0 <= i < |clones| => ClonePath(dataset, clones[i]))
  }

  lemma SolidPaths(dataset: string, clone: string)
    requires Solid(dataset) && Solid(clone)
    ensures Solid(dataset + "/branches") && Solid(ClonePath(dataset, clone))
  {
  }

  lemma {:induction false} ClonePrefix(dataset: string, clones: seq<string>, n: nat)
    requires dataset != [] && Solid(dataset) && n <= |clones|
    requires forall i | 0 <= i < |clones| :: Solid(clones[i]) && clones[i] != [] && '/' !in clones[i]
    ensures CloneNames(([dataset + "/branches"] + ClonePaths(dataset, clones))[..n + 1], dataset + "/branches")
        == clones[..n]
  {
    var root := dataset + "/branches";
    var lines := [root] + ClonePaths(dataset, clones);
    if n == 0 {
      SolidPaths(dataset, []);
      TrimTrimmed(root);
      assert lines[..1] == [root] && lines[..1][..0] == [];
    } else {
      var path := ClonePath(dataset, clones[n - 1]);
      assert lines[..n + 1][..n] == lines[..n] && lines[..n + 1][n] == path;
      ClonePrefix(dataset, clones, n - 1);
      SolidPaths(dataset, clones[n - 1]);
      TrimTrimmed(path);
      ClonePathLastPart(dataset, clones[n - 1]);
      assert clones[..n] == clones[..n - 1] + [clones[n - 1]];
    }
  }

  lemma SolidLines(dataset: string, clones: seq<string>)
    requires dataset != [] && Solid(dataset) && forall i | 0 <= i < |clones| :: Solid(clones[i])
    ensures var lines := [dataset + "/branches"] + ClonePaths(dataset, clones);
            forall i | 0 <= i < |lines| :: Solid(lines[i])
  {
    var lines := [dataset + "/branches"] + ClonePaths(dataset, clones);
    forall i | 0 <= i < |lines| ensures Solid(lines[i]) {
      SolidPaths(dataset, if i > 0 then clones[i - 1] else []);
      assert i > 0 ==> lines[i] == ClonePath(dataset, clones[i - 1]);
    }
  }

  /** Of the recursive listing of a dataset's branches, ListClones extracts exactly the
      names of the clones, in order. */
  lemma CloneListRoundTrip(dataset: string, clones: seq<string>)
    requires dataset != [] && Solid(dataset)
    requires forall i | 0 <= i < |clones| :: Solid(clones[i]) && clones[i] != [] && '/' !in clones[i]
    ensures CloneNames(Lines(Unlines([dataset + "/branches"] + ClonePaths(dataset, clones))), dataset + "/branches")
        == clones
  {
    var lines := [dataset + "/branches"] + ClonePaths(dataset, clones);
    SolidLines(dataset, clones);
    LinesUnlines(lines);
    ClonePrefix(dataset, clones, |clones|);
    assert lines[..|clones| + 1] == lines && clones[..|clones|] == clones;
  }
}
