/** Fixed-column text: the column, trimming, padding and line-splitting
    primitives the ANTEX reader and writer share. Text is ASCII, so a column is
    both a byte and a character. */
module Text {

  datatype Option<+T> = None | Some(value: T)

  datatype Result<+T, +E> = Ok(value: T) | Err(error: E) {
    predicate IsFailure() { Err? }
    function PropagateFailure<U>(): Result<U, E>
      requires Err?
    {
      Err(error)
    }
    function Extract(): T
      requires Ok?
    {
      value
    }
  }

  /** ASCII characters `char::is_whitespace` accepts. */
  predicate IsSpace(c: char) { c == ' ' || '\t' <= c <= '\r' }

  predicate IsDigit(c: char) { '0' <= c <= '9' }

  function TrimEnd(s: string): (r: string)
    ensures |r| <= |s|
  {
    if s != "" && IsSpace(s[|s| - 1]) then TrimEnd(s[..|s| - 1]) else s
  }

  function TrimStart(s: string): (r: string)
    ensures |r| <= |s|
  {
    if s != "" && IsSpace(s[0]) then TrimStart(s[1..]) else s
  }

  function Trim(s: string): string { TrimEnd(TrimStart(s)) }

  /** Unchanged by trimming trailing whitespace. */
  predicate TightEnd(s: string) { s != "" ==> !IsSpace(s[|s| - 1]) }

  /** Unchanged by trimming whitespace at both ends. */
  predicate Tight(s: string) { s != "" ==> !IsSpace(s[0]) && !IsSpace(s[|s| - 1]) }

  function Blanks(n: nat): (r: string)
    ensures |r| == n
    ensures forall i :: 0 <= i < n ==> r[i] == ' '
  {
    seq(n, _ => ' ')
  }

  /** Pad with blanks on the right to at least `width` columns. */
  function Pad(s: string, width: nat): (r: string)
    ensures |r| == if |s| < width then width else |s|
  {
    if |s| < width then s + Blanks(width - |s|) else s
  }

  /** Pad with blanks on the left to at least `width` columns. */
  function PadLeft(s: string, width: nat): (r: string)
    ensures |r| == if |s| < width then width else |s|
  {
    if |s| < width then Blanks(width - |s|) + s else s
  }

  /** Untrimmed columns `start..end`; the empty text past the end of the line. */
  function RawField(line: string, start: nat, end: nat): string {
    var s := if start <= |line| then start else |line|;
    var e := if end <= |line| then end else |line|;
    if e <= s then "" else line[s..e]
  }

  /** Trimmed columns `start..end`; `None` when they are blank or missing. */
  function Field(line: string, start: nat, end: nat): Option<string> {
    var value := Trim(RawField(line, start, end));
    if value == "" then None else Some(value)
  }

  // ----- trimming and padding -----

  lemma {:induction false} TrimEndPrefix(s: string)
    ensures TrimEnd(s) <= s && TightEnd(TrimEnd(s))
  {
    if s != "" && IsSpace(s[|s| - 1]) {
      TrimEndPrefix(s[..|s| - 1]);
    }
  }

  lemma {:induction false} TrimStartSuffix(s: string)
    ensures TrimStart(s) == s[|s| - |TrimStart(s)|..]
    ensures TrimStart(s) != "" ==> !IsSpace(TrimStart(s)[0])
  {
    if s != "" && IsSpace(s[0]) {
      TrimStartSuffix(s[1..]);
    }
  }

  /** What is left after trimming is tight and stands somewhere in the text. */
  lemma {:induction false} TrimWithin(s: string) returns (i: nat)
    ensures Tight(Trim(s))
    ensures i + |Trim(s)| <= |s| && Trim(s) == s[i..i + |Trim(s)|]
  {
    var t := TrimStart(s);
    TrimStartSuffix(s);
    TrimEndPrefix(t);
    i := |s| - |t|;
    assert Trim(s) == s[i..i + |Trim(s)|];
  }

  lemma {:induction false} TrimEndBlanks(s: string, n: nat)
    ensures TrimEnd(s + Blanks(n)) == TrimEnd(s)
    decreases n
  {
    if n == 0 {
      assert s + Blanks(0) == s;
    } else {
      assert (s + Blanks(n))[..|s| + n - 1] == s + Blanks(n - 1);
      TrimEndBlanks(s, n - 1);
    }
  }

  lemma {:induction false} TrimStartBlanks(s: string, n: nat)
    ensures TrimStart(Blanks(n) + s) == TrimStart(s)
    decreases n
  {
    if n == 0 {
      assert Blanks(0) + s == s;
    } else {
      assert (Blanks(n) + s)[1..] == Blanks(n - 1) + s;
      TrimStartBlanks(s, n - 1);
    }
  }

  /** Blanks around a tight text vanish under `Trim`. */
  lemma {:induction false} TrimSurrounded(a: nat, s: string, b: nat)
    requires Tight(s)
    ensures Trim(Blanks(a) + s + Blanks(b)) == s
  {
    assert Blanks(a) + s + Blanks(b) == Blanks(a) + (s + Blanks(b));
    TrimStartBlanks(s + Blanks(b), a);
    if s == "" {
      assert s + Blanks(b) == Blanks(b) + "";
      TrimStartBlanks("", b);
    } else {
      TrimEndBlanks(s, b);
    }
  }

  /** Trailing blanks never matter to `Trim`, whatever stands before them. */
  lemma {:induction false} TrimPadded(s: string, n: nat)
    ensures Trim(s + Blanks(n)) == Trim(s)
  {
    var t := TrimStart(s);
    if t == "" {
      TrimStartSplit(s, Blanks(n));
      assert TrimStart(s + Blanks(n)) == TrimStart(Blanks(n));
      assert Blanks(n) + "" == Blanks(n);
      TrimStartBlanks("", n);
    } else {
      TrimStartSplit(s, Blanks(n));
      TrimEndBlanks(t, n);
    }
  }

  lemma {:induction false} TrimStartSplit(s: string, tail: string)
    ensures TrimStart(s + tail) == if TrimStart(s) == "" then TrimStart(tail) else TrimStart(s) + tail
  {
    if s == "" {
      assert s + tail == tail;
    } else if IsSpace(s[0]) {
      assert (s + tail)[1..] == s[1..] + tail;
      TrimStartSplit(s[1..], tail);
    }
  }

  /** Blanks, tabs, line feeds, vertical tabs, form feeds and carriage returns. */
  predicate Blank(s: string) { forall c :: c in s ==> c as int in {9, 10, 11, 12, 13, 32} }

  /** Trimming takes these off both ends, and nothing else. */
  lemma {:induction false} TrimMeans(s: string) returns (lead: string, tail: string)
    ensures s == lead + Trim(s) + tail && Tight(Trim(s)) && Blank(lead) && Blank(tail)
  {
    hide TrimStart, TrimEnd, Blank, Tight;
    var _ := TrimWithin(s);
    lead := StartMeans(s);
    tail := EndMeans(TrimStart(s));
    Regrouped(lead, Trim(s), tail);
  }

  lemma Regrouped(a: string, b: string, c: string)
    ensures a + (b + c) == a + b + c
  {
  }

  lemma {:induction false} StartMeans(s: string) returns (lead: string)
    ensures s == lead + TrimStart(s) && Blank(lead)
  {
    if s != "" && IsSpace(s[0]) {
      var rest := StartMeans(s[1..]);
      lead := [s[0]] + rest;
      SpaceIs(s[0]);
      assert s == [s[0]] + s[1..];
    } else {
      lead := "";
    }
  }

  lemma {:induction false} EndMeans(s: string) returns (tail: string)
    ensures s == TrimEnd(s) + tail && Blank(tail)
  {
    if s != "" && IsSpace(s[|s| - 1]) {
      var rest := EndMeans(s[..|s| - 1]);
      tail := rest + [s[|s| - 1]];
      SpaceIs(s[|s| - 1]);
      assert s == s[..|s| - 1] + [s[|s| - 1]];
    } else {
      tail := "";
    }
  }

  lemma SpaceIs(c: char)
    ensures IsSpace(c) <==> c as int in {9, 10, 11, 12, 13, 32}
  {
  }

  lemma TrimTight(s: string)
    requires Tight(s)
    ensures Trim(s) == s
  {
  }

  lemma {:induction false} TrimPad(s: string, width: nat)
    requires Tight(s)
    ensures Trim(Pad(s, width)) == s
  {
    if |s| < width {
      TrimPadded(s, width - |s|);
    }
    TrimTight(s);
  }

  lemma {:induction false} TrimPadLeft(s: string, width: nat)
    requires Tight(s)
    ensures Trim(PadLeft(s, width)) == s
  {
    var n := |PadLeft(s, width)| - |s|;
    TrimSurrounded(n, s, 0);
    assert Blanks(n) + s + Blanks(0) == Blanks(n) + s;
    assert Blanks(0) + s == s;
  }

  lemma {:induction false} TrimEndPad(s: string, width: nat)
    requires TightEnd(s)
    ensures TrimEnd(Pad(s, width)) == s
  {
    TrimEndBlanks(s, |Pad(s, width)| - |s|);
    assert s + Blanks(0) == s;
  }

  // ----- lines -----

  /** Index of the first line feed, or the length when there is none. */
  function LineEnd(text: string): (n: nat)
    ensures n <= |text|
    ensures n < |text| ==> text[n] == '\n'
    ensures '\n' !in text[..n]
  {
    if text == "" || text[0] == '\n' then 0
    else
      assert forall m: nat {:trigger text[..m + 1]} :: m < |text| ==> text[..m + 1] == [text[0]] + text[1..][..m];
      1 + LineEnd(text[1..])
  }

  function DropReturn(s: string): string {
    if s != "" && s[|s| - 1] == '\r' then s[..|s| - 1] else s
  }

  /** `str::lines`: split at line feeds, dropping one carriage return before
      each, with no final empty line. */
  function Lines(text: string): seq<string>
    decreases |text|
  {
    if text == "" then []
    else
      var n := LineEnd(text);
      if n == |text| then [text]
      else [DropReturn(text[..n])] + Lines(text[n + 1..])
  }

  /** Each line followed by a line feed. */
  function Joined(lines: seq<string>): string {
    if lines == [] then "" else lines[0] + "\n" + Joined(lines[1..])
  }

  predicate OneLine(s: string) { '\n' !in s && '\r' !in s }

  lemma {:induction false} LineEndAt(s: string, tail: string)
    requires '\n' !in s
    ensures LineEnd(s + "\n" + tail) == |s|
  {
    var t := s + "\n" + tail;
    var n := LineEnd(t);
    assert forall i :: 0 <= i < |s| ==> t[i] == s[i];
    assert t[|s|] == '\n';
    assert forall i :: 0 <= i < n ==> t[i] in t[..n];
  }

  /** Splitting undoes joining for texts that carry no line break. */
  lemma {:induction false} LinesJoined(lines: seq<string>)
    requires forall i :: 0 <= i < |lines| ==> OneLine(lines[i])
    ensures Lines(Joined(lines)) == lines
  {
    if lines != [] {
      var s, tail := lines[0], Joined(lines[1..]);
      assert OneLine(s);
      LineEndAt(s, tail);
      var t := s + "\n" + tail;
      assert t[..|s|] == s && t[|s| + 1..] == tail;
      LinesJoined(lines[1..]);
    }
  }

  /** Carriage returns before the line feeds say nothing, and a last line needs no line
      feed. */
  lemma {:induction false} LinesReturned(lines: seq<string>, last: string)
    requires forall i :: 0 <= i < |lines| ==> '\n' !in lines[i]
    requires '\n' !in last && last != ""
    ensures Lines(Returned(lines) + last) == lines + [last]
  {
    hide Lines;
    if lines == [] {
      LastLine(last);
      assert "" + last == last;
    } else {
      var tail := Returned(lines[1..]) + last;
      assert Returned(lines) + last == lines[0] + "\r" + "\n" + tail;
      FirstLine(lines[0] + "\r", tail);
      LinesReturned(lines[1..], last);
      assert (lines[0] + "\r")[..|lines[0]|] == lines[0];
      assert lines + [last] == [lines[0]] + (lines[1..] + [last]);
    }
  }

  lemma {:induction false} FirstLine(s: string, tail: string)
    requires '\n' !in s
    ensures Lines(s + "\n" + tail) == [DropReturn(s)] + Lines(tail)
  {
    var t := s + "\n" + tail;
    LineEndAt(s, tail);
    assert t[..|s|] == s && t[|s| + 1..] == tail;
  }

  function Returned(lines: seq<string>): string {
    if lines == [] then "" else lines[0] + "\r\n" + Returned(lines[1..])
  }

  lemma LastLine(s: string)
    requires '\n' !in s && s != ""
    ensures Lines(s) == [s]
  {
    forall i | 0 <= i < |s| ensures s[i] != '\n' {
      assert s[i] in s;
    }
  }
}
