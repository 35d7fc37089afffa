/** Reading a text, writing it back and reading that: the loops of the reader and of
    the writer together. */
module AntexRewrite {
  import opened Text
  import opened AntexTypes
  import opened AntexReader
  import opened AntexWriter
  import opened AntexParser
  import opened AntexEmitter
  import opened AntexRuns

  /** Parses, encodes, parses and encodes again. Whenever both accept the text, the
      second reading gives the first product without its skips, and the second
      writing the same text. */
  method Rewrite(pf: Platform, text: string) returns (written: Option<string>, same: bool)
    ensures written.Some? <==> Parse(pf, text).Ok? && Encode(pf, Parse(pf, text).value).Ok?
    ensures written.Some? ==> Ok(written.value) == Encode(pf, Parse(pf, text).value)
    ensures Lawful(pf) && written.Some? ==> same && Parse(pf, written.value) == Ok(Parse(pf, text).value.(skips := []))
  {
    hide Lawful, Parse, Encode;
    var first := ParseText(pf, text);
    if first.Err? { return None, false; }
    var once := EncodeText(pf, first.value);
    if once.Err? { return None, false; }
    ghost var lawful := Lawful(pf);
    if lawful {
      ParsedRoundTrip(pf, text);
    }
    var again := ParseText(pf, once.value);
    if again.Err? { return Some(once.value), false; }
    var twice := EncodeText(pf, again.value);
    return Some(once.value), again.value == first.value.(skips := []) && twice == once;
  }
}
