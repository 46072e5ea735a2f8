/**
 * parse_extensions in attachment_filter_config (admin/views.py): the
 * textarea of file extensions, one per line or comma-separated, turned into
 * a list of distinct ".ext" entries in first-seen order.
 */
module AttachmentFilter {
  import opened Text
  import opened SeqFacts

  /** One entry: stripped, lowercased, with a leading dot added when missing; "" for a blank line. */
  function NormalizeExtension(line: string): (ext: string)
    ensures ext == "" <==> Strip(line) == ""
    ensures ext != "" ==> ext[0] == '.'
  {
    var e := Lower(Strip(line));
    if e == "" then ""
    else if e[0] == '.' then e
    else "." + e
  }

  /** The entries in line order, blank ones dropped, duplicates kept. */
  function Entries(lines: seq<string>): (r: seq<string>)
    ensures forall k :: 0 <= k < |r| ==> r[k] != "" && r[k][0] == '.'
    decreases |lines|
  {
    if lines == [] then []
    else
      var init := Entries(lines[..|lines| - 1]);
      var e := NormalizeExtension(lines[|lines| - 1]);
      if e != "" then init + [e] else init
  }

  /** list(dict.fromkeys(xs)): the first occurrence of each value, in order. */
  function Dedupe(xs: seq<string>): (r: seq<string>)
    ensures forall x :: x in r <==> x in xs
    ensures forall i, j :: 0 <= i < j < |r| ==> r[i] != r[j]
    decreases |xs|
  {
    if xs == [] then []
    else
      var init := Dedupe(xs[..|xs| - 1]);
      var x := xs[|xs| - 1];
      assert xs == xs[..|xs| - 1] + [x];
      if x in init then init else init + [x]
  }

  /** The index of the first occurrence of x in xs, or |xs| when x does not occur. */
  function FirstIndex(xs: seq<string>, x: string): (i: nat)
    ensures i <= |xs|
    ensures i < |xs| <==> x in xs
    ensures i < |xs| ==> xs[i] == x
    ensures forall j :: 0 <= j < i ==> xs[j] != x
    decreases |xs|
  {
    if xs == [] then 0
    else if xs[0] == x then 0
    else 1 + FirstIndex(xs[1..], x)
  }

  /** Appending after the first occurrence of x does not move it. */
  lemma FirstIndexOfPrefix(p: seq<string>, q: seq<string>, x: string)
    requires x in p
    ensures FirstIndex(p + q, x) == FirstIndex(p, x)
  {
    var k := FirstIndex(p, x);
    var k' := FirstIndex(p + q, x);
    assert (p + q)[k] == x;
    if k' < k {
      assert p[k'] == (p + q)[k'];
    }
  }

  /** A value that does not occur before the last position first occurs there. */
  lemma FirstIndexAtEnd(init: seq<string>, x: string)
    requires x !in init
    ensures FirstIndex(init + [x], x) == |init|
  {
  }

  /** The values of r appear in the order of their first occurrences in xs. */
  predicate InFirstOccurrenceOrder(xs: seq<string>, r: seq<string>) {
    forall i, i' :: 0 <= i < i' < |r| ==> FirstIndex(xs, r[i]) < FirstIndex(xs, r[i'])
  }

  /**
   * Dedupe keeps each value where it first occurs: the values it lists
   * appear in the order of their first occurrences in the input.
   */
  lemma {:induction false} DedupeFirstOccurrences(xs: seq<string>)
    ensures InFirstOccurrenceOrder(xs, Dedupe(xs))
    decreases |xs|
  {
    if xs != [] {
      var init := xs[..|xs| - 1];
      var x := xs[|xs| - 1];
      assert xs == init + [x];
      DedupeFirstOccurrences(init);
      var before := Dedupe(init);
      assert Dedupe(xs) == if x in before then before else before + [x];
      OrderStep(init, x, before);
    }
  }

  /** One more value keeps the order, whether it is new (and goes last) or already listed. */
  lemma OrderStep(init: seq<string>, x: string, before: seq<string>)
    requires InFirstOccurrenceOrder(init, before)
    requires forall y :: y in before <==> y in init
    ensures InFirstOccurrenceOrder(init + [x], if x in before then before else before + [x])
  {
    var xs := init + [x];
    var r := if x in before then before else before + [x];
    forall i, i' | 0 <= i < i' < |r| ensures FirstIndex(xs, r[i]) < FirstIndex(xs, r[i']) {
      assert r[i] == before[i] && before[i] in before;
      FirstIndexOfPrefix(init, [x], r[i]);
      if i' < |before| {
        assert r[i'] == before[i'] && before[i'] in before;
        FirstIndexOfPrefix(init, [x], r[i']);
      } else {
        FirstIndexAtEnd(init, x);
      }
    }
  }

  /** The textarea's lines once every comma has become a line break. */
  function Lines(raw: string): seq<string> {
    Split(ReplaceChar(raw, ',', '\n'), '\n')
  }

  /** parse_extensions as a value. */
  function ParsedExtensions(raw: string): seq<string> {
    Dedupe(Entries(Lines(raw)))
  }

  /** No line holds a separator. */
  lemma LinesHaveNoSeparator(raw: string)
    ensures forall k :: 0 <= k < |Lines(raw)| ==> ',' !in Lines(raw)[k] && '\n' !in Lines(raw)[k]
  {
    var replaced := ReplaceChar(raw, ',', '\n');
    assert ',' !in replaced;
    var parts := Split(replaced, '\n');
    SplitPartsWithin(replaced, '\n');
    forall k | 0 <= k < |parts| ensures ',' !in parts[k] {
      assert forall c :: c in parts[k] ==> c in replaced;
    }
  }

  /** Every character of a piece of a split comes from the split string. */
  lemma {:induction false} SplitPartsWithin(s: string, sep: char)
    ensures forall k, c :: 0 <= k < |Split(s, sep)| && c in Split(s, sep)[k] ==> c in s
    decreases |s|
  {
    var i := IndexOf(s, sep);
    if i < |s| {
      SplitPartsWithin(s[i + 1..], sep);
      assert Split(s, sep) == [s[..i]] + Split(s[i + 1..], sep);
      forall k, c | 0 <= k < |Split(s, sep)| && c in Split(s, sep)[k] ensures c in s {
        if k == 0 {
          assert c in s[..i];
        } else {
          assert c in Split(s[i + 1..], sep)[k - 1];
          assert c in s[i + 1..];
        }
      }
    }
  }

  /**
   * The parsed list holds each extension once, every one starts with a dot,
   * none is blank or holds a separator, an entry is in it exactly when
   * some line normalizes to it, and the entries come in the order in which
   * they first occur among the lines' entries.
   */
  lemma ParsedExtensionsShape(raw: string, x: string)
    ensures var r := ParsedExtensions(raw);
      && (forall i, j :: 0 <= i < j < |r| ==> r[i] != r[j])
      && (forall k :: 0 <= k < |r| ==> r[k] != "" && r[k][0] == '.')
      && (x in r <==> x != "" && exists k :: 0 <= k < |Lines(raw)| && NormalizeExtension(Lines(raw)[k]) == x)
      && InFirstOccurrenceOrder(Entries(Lines(raw)), r)
  {
    var lines := Lines(raw);
    var es := Entries(lines);
    var r := Dedupe(es);
    assert r == ParsedExtensions(raw);
    EntriesMembers(lines, x);
    assert x in r <==> x in es;
    DedupeKeepsShape(es);
    DedupeFirstOccurrences(es);
  }

  /** Deduplicating keeps every entry non-empty and dotted. */
  lemma DedupeKeepsShape(es: seq<string>)
    requires forall k :: 0 <= k < |es| ==> es[k] != "" && es[k][0] == '.'
    ensures forall k :: 0 <= k < |Dedupe(es)| ==> Dedupe(es)[k] != "" && Dedupe(es)[k][0] == '.'
  {
    var r := Dedupe(es);
    forall k | 0 <= k < |r| ensures r[k] != "" && r[k][0] == '.' {
      assert r[k] in es;
    }
  }

  /** An entry is listed exactly when some line normalizes to it. */
  lemma {:induction false} EntriesMembers(lines: seq<string>, x: string)
    ensures x in Entries(lines) <==> x != "" && SomeMapsTo(lines, NormalizeExtension, x)
    decreases |lines|
  {
    if lines != [] {
      var init := lines[..|lines| - 1];
      EntriesMembers(init, x);
      SomeMapsToSplit(lines, NormalizeExtension, x);
      var e := NormalizeExtension(lines[|lines| - 1]);
      assert Entries(lines) == if e != "" then Entries(init) + [e] else Entries(init);
    }
  }

  /** The loop of parse_extensions, then the order-keeping dedupe. */
  method ParseExtensions(raw: string) returns (extensions: seq<string>)
    ensures extensions == ParsedExtensions(raw)
  {
    var lines := Split(ReplaceChar(raw, ',', '\n'), '\n');
    var collected: seq<string> := [];
    for i := 0 to |lines|
      invariant collected == Entries(lines[..i])
    {
      var ext := NormalizeLine(lines[i]);
      EntriesStep(lines, i);
      if ext != "" {
        collected := collected + [ext];
      }
    }
    assert lines[..|lines|] == lines;
    extensions := DedupeInOrder(collected);
  }

  /** The body of the loop for one line: strip, lowercase, add the missing dot. */
  method NormalizeLine(line: string) returns (ext: string)
    ensures ext == NormalizeExtension(line)
  {
    ext := Lower(Strip(line));
    if ext != "" && ext[0] != '.' {
      ext := "." + ext;
    }
  }

  /** One more line adds its entry, if it has one, to the entries of the lines before it. */
  lemma EntriesStep(lines: seq<string>, i: nat)
    requires i < |lines|
    ensures var e := NormalizeExtension(lines[i]);
      Entries(lines[..i + 1]) == if e != "" then Entries(lines[..i]) + [e] else Entries(lines[..i])
  {
    assert lines[..i + 1][..i] == lines[..i];
  }

  /** dict.fromkeys: walk the list and keep what has not been seen. */
  method DedupeInOrder(xs: seq<string>) returns (r: seq<string>)
    ensures r == Dedupe(xs)
  {
    r := [];
    for i := 0 to |xs|
      invariant r == Dedupe(xs[..i])
    {
      assert xs[..i + 1][..i] == xs[..i];
      if xs[i] !in r {
        r := r + [xs[i]];
      }
    }
    assert xs[..|xs|] == xs;
  }
}
