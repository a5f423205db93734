/** The string operations the program takes from its libraries. */
module Text {
  predicate IsSpace(c: char) {
    c in {'\t', '\n', '\U{0B}', '\U{0C}', '\r', ' ', '\U{85}', '\U{A0}'}
  }

  predicate Solid(s: string) {
    forall i | 0 <= i < |s| :: !IsSpace(s[i])
  }

  /** Neither end is white space. */
  predicate Trimmed(s: string) {
    s != [] ==> !IsSpace(s[0]) && !IsSpace(s[|s| - 1])
  }

  function TrimLeft(s: string): (r: string)
    ensures |r| <= |s| && (r != [] ==> !IsSpace(r[0]))
  {
    if s != [] && IsSpace(s[0]) then TrimLeft(s[1..]) else s
  }

  function TrimRight(s: string): string {
    if s != [] && IsSpace(s[|s| - 1]) then TrimRight(s[..|s| - 1]) else s
  }

  function TrimSpace(s: string): string {
    TrimRight(TrimLeft(s))
  }

  lemma TrimTrimmed(s: string)
    requires Trimmed(s)
    ensures TrimSpace(s) == s
  {
  }

  /** Nothing but white space. */
  predicate Blank(s: string) {
    forall i | 0 <= i < |s| :: IsSpace(s[i])
  }

  /** What TrimSpace leaves: the one part without white space at its ends that has nothing
      but white space around it. */
  lemma TrimPadded(before: string, s: string, after: string)
    requires Blank(before) && Blank(after) && Trimmed(s)
    ensures TrimSpace(before + s + after) == s
  {
    if s == [] {
      assert before + s + after == before + after;
      TrimLeftBlank(before + after, []);
      assert before + after + [] == before + after;
    } else {
      TrimLeftBlank(before, s + after);
      assert before + (s + after) == before + s + after;
      assert (s + after)[0] == s[0];
      TrimRightBlank(s, after);
    }
  }

  lemma {:induction false} TrimLeftBlank(before: string, s: string)
    requires Blank(before) && (s != [] ==> !IsSpace(s[0]))
    ensures TrimLeft(before + s) == s
  {
    if before == [] {
      assert before + s == s;
    } else {
      assert (before + s)[1..] == before[1..] + s;
      TrimLeftBlank(before[1..], s);
    }
  }

  lemma {:induction false} TrimRightBlank(s: string, after: string)
    requires s != [] && !IsSpace(s[|s| - 1]) && Blank(after)
    ensures TrimRight(s + after) == s
  {
    if after == [] {
      assert s + after == s;
    } else {
      assert (s + after)[..|s + after| - 1] == s + after[..|after| - 1];
      TrimRightBlank(s, after[..|after| - 1]);
    }
  }

  /** And there is such a part. */
  lemma TrimParts(s: string) returns (before: string, after: string)
    ensures Blank(before) && Blank(after) && s == before + TrimSpace(s) + after && Trimmed(TrimSpace(s))
  {
    before := LeftPart(s);
    var l := TrimLeft(s);
    after := RightPart(l);
    var r := TrimRight(l);
    assert r != [] ==> r[0] == l[0];
    assert s == before + (r + after) == before + r + after;
  }

  lemma {:induction false} LeftPart(s: string) returns (before: string)
    ensures Blank(before) && s == before + TrimLeft(s)
  {
    if s != [] && IsSpace(s[0]) {
      var rest := LeftPart(s[1..]);
      before := [s[0]] + rest;
    } else {
      before := [];
    }
  }

  lemma {:induction false} RightPart(s: string) returns (after: string)
    ensures Blank(after) && s == TrimRight(s) + after
    ensures TrimRight(s) != [] ==> !IsSpace(TrimRight(s)[|TrimRight(s)| - 1])
  {
    if s != [] && IsSpace(s[|s| - 1]) {
      var rest := RightPart(s[..|s| - 1]);
      after := rest + [s[|s| - 1]];
    } else {
      after := [];
    }
  }

  /** Where a character first occurs, the length of the string if it does not. */
  function IndexOf(s: string, c: char): (k: nat)
    ensures k <= |s| && (k < |s| ==> s[k] == c)
    ensures forall i | 0 <= i < k :: s[i] != c
  {
    if s == [] || s[0] == c then 0 else 1 + IndexOf(s[1..], c)
  }

  lemma {:induction false} IndexOfAt(s: string, c: char, t: string)
    requires c !in s
    ensures IndexOf(s + [c] + t, c) == |s|
  {
    var whole := s + [c] + t;
    assert whole[|s|] == c;
    assert forall i | 0 <= i < |s| :: whole[i] == s[i] != c;
  }

  /** strings.Split with a one-character separator. */
  function Split(s: string, sep: char): (r: seq<string>)
    ensures |r| >= 1
  {
    if s == [] then [[]]
    else if s[0] == sep then [[]] + Split(s[1..], sep)
    else
      var r := Split(s[1..], sep);
      [[s[0]] + r[0]] + r[1..]
  }

  function Join(parts: seq<string>, sep: string): string {
    if parts == [] then []
    else if |parts| == 1 then parts[0]
    else parts[0] + sep + Join(parts[1..], sep)
  }

  lemma {:induction false} SplitOne(s: string, sep: char)
    requires sep !in s
    ensures Split(s, sep) == [s]
  {
    if s == [] {
    } else {
      SplitOne(s[1..], sep);
      assert [s[0]] + s[1..] == s;
    }
  }

  lemma {:induction false} SplitFirst(s: string, sep: char, rest: string)
    requires sep !in s
    ensures Split(s + [sep] + rest, sep) == [s] + Split(rest, sep)
  {
    var t := s + [sep] + rest;
    if s == [] {
      assert t[1..] == rest;
    } else {
      assert t[1..] == s[1..] + [sep] + rest;
      SplitFirst(s[1..], sep, rest);
      assert [s[0]] + s[1..] == s;
    }
  }

  /** Splitting undoes joining. */
  lemma {:induction false} SplitJoin(parts: seq<string>, sep: char)
    requires parts != [] && forall i | 0 <= i < |parts| :: sep !in parts[i]
    ensures Split(Join(parts, [sep]), sep) == parts
  {
    if |parts| == 1 {
      SplitOne(parts[0], sep);
    } else {
      SplitJoin(parts[1..], sep);
      SplitFirst(parts[0], sep, Join(parts[1..], [sep]));
      assert [parts[0]] + parts[1..] == parts;
    }
  }

  /** How many characters the word at the front of the string has. */
  function WordLength(s: string): (k: nat)
    ensures k <= |s| && (s != [] && !IsSpace(s[0]) ==> k > 0)
  {
    if s == [] || IsSpace(s[0]) then 0 else 1 + WordLength(s[1..])
  }

  /** strings.Fields. */
  function Fields(s: string): seq<string>
    decreases |s|
  {
    var t := TrimLeft(s);
    if t == [] then []
    else
      var k := WordLength(t);
      [t[..k]] + Fields(t[k..])
  }

  lemma {:induction false} WordLengthAt(w: string, c: char, rest: string)
    requires Solid(w) && IsSpace(c)
    ensures WordLength(w + [c] + rest) == |w|
  {
    var s := w + [c] + rest;
    if w != [] {
      assert s[0] == w[0] && s[1..] == w[1..] + [c] + rest;
      WordLengthAt(w[1..], c, rest);
    }
  }

  /** A word and a blank in front add that word to the fields. */
  lemma FieldsFirst(w: string, c: char, rest: string)
    requires w != [] && Solid(w) && IsSpace(c)
    ensures Fields(w + [c] + rest) == [w] + Fields(rest)
  {
    var s := w + [c] + rest;
    assert s[0] == w[0];
    assert TrimLeft(s) == s;
    WordLengthAt(w, c, rest);
    assert s[..|w|] == w && s[|w|..] == [c] + rest;
    assert TrimLeft([c] + rest) == TrimLeft(rest) by { assert ([c] + rest)[1..] == rest; }
    assert Fields([c] + rest) == Fields(rest);
  }

  /** Text that is trimmed has more than one field exactly if it has white space inside. */
  lemma FieldsOfTrimmed(s: string)
    requires Trimmed(s)
    ensures |Fields(s)| < 2 <==> Solid(s)
  {
    if s != [] {
      var k := WordLength(s);
      WordIsSolid(s);
      assert TrimLeft(s) == s && Fields(s) == [s[..k]] + Fields(s[k..]);
      if k < |s| {
        assert s[k..][|s[k..]| - 1] == s[|s| - 1];
        TrimLeftSome(s[k..]);
      } else {
        assert s[..k] == s && s[k..] == [];
      }
    }
  }

  lemma {:induction false} WordIsSolid(s: string)
    ensures Solid(s[..WordLength(s)]) && (WordLength(s) < |s| ==> IsSpace(s[WordLength(s)]))
  {
    if s != [] && !IsSpace(s[0]) {
      WordIsSolid(s[1..]);
      var k := WordLength(s[1..]);
      assert s[..k + 1] == [s[0]] + s[1..][..k];
    }
  }

  lemma {:induction false} TrimLeftSome(s: string)
    requires s != [] && !IsSpace(s[|s| - 1])
    ensures TrimLeft(s) != []
  {
    if IsSpace(s[0]) {
      TrimLeftSome(s[1..]);
    }
  }

  /** The lines of an output, as a line scanner delivers them. */
  function Lines(s: string): seq<string> {
    var parts := Split(s, '\n');
    DropReturns(if parts[|parts| - 1] == [] then parts[..|parts| - 1] else parts)
  }

  function DropReturn(l: string): string {
    if l != [] && l[|l| - 1] == '\r' then l[..|l| - 1] else l
  }

  function DropReturns(ls: seq<string>): seq<string> {
    if ls == [] then [] else [DropReturn(ls[0])] + DropReturns(ls[1..])
  }

  /** Every line followed by a newline. */
  function Unlines(ls: seq<string>): string {
    if ls == [] then [] else ls[0] + ['\n'] + Unlines(ls[1..])
  }

  lemma {:induction false} SplitUnlines(ls: seq<string>)
    requires forall i | 0 <= i < |ls| :: '\n' !in ls[i]
    ensures Split(Unlines(ls), '\n') == ls + [[]]
  {
    if ls == [] {
    } else {
      SplitUnlines(ls[1..]);
      SplitFirst(ls[0], '\n', Unlines(ls[1..]));
      assert [ls[0]] + (ls[1..] + [[]]) == ls + [[]];
    }
  }

  lemma {:induction false} DropReturnsNone(ls: seq<string>)
    requires forall i | 0 <= i < |ls| :: DropReturn(ls[i]) == ls[i]
    ensures DropReturns(ls) == ls
  {
    if ls == [] {
    } else {
      DropReturnsNone(ls[1..]);
    }
  }

  /** Scanning printed lines returns them. */
  lemma LinesUnlines(ls: seq<string>)
    requires forall i | 0 <= i < |ls| :: '\n' !in ls[i] && Trimmed(ls[i])
    ensures Lines(Unlines(ls)) == ls
  {
    SplitUnlines(ls);
    assert (ls + [[]])[..|ls|] == ls;
    forall i | 0 <= i < |ls| ensures DropReturn(ls[i]) == ls[i] {
      assert Trimmed(ls[i]);
    }
    DropReturnsNone(ls);
  }
}
