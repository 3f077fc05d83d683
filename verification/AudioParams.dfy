/** Audio parameter strings, "key=value" pairs separated by ';': the parser that the streams share and
    the printer at the end of out_get_parameters. */
module AudioParams {
  import opened Options

  // The parts of a string with one more character in front.
  function PrependTo(c: char, sep: char, parts: seq<string>): seq<string>
    requires parts != []
  {
    if c == sep then [""] + parts else [[c] + parts[0]] + parts[1..]
  }

  // android::base::Split: always at least one part, and "" is one empty part.
  function Split(s: string, sep: char): (parts: seq<string>)
    ensures |parts| >= 1
  {
    if s == "" then [""]
    else PrependTo(s[0], sep, Split(s[1..], sep))
  }

  lemma {:induction false} SplitConcatenated(a: string, sep: char, b: string)
    ensures Split(a + [sep] + b, sep) == Split(a, sep) + Split(b, sep)
  {
    var all := a + [sep] + b;
    if a == "" {
      assert all[1..] == b;
    } else {
      SplitConcatenated(a[1..], sep, b);
      assert all[1..] == a[1..] + [sep] + b;
      FirstParts(a[0], sep, Split(a[1..], sep), Split(b, sep));
    }
  }

  lemma FirstParts(c: char, sep: char, a: seq<string>, b: seq<string>)
    requires a != []
    ensures PrependTo(c, sep, a + b) == PrependTo(c, sep, a) + b
  {}

  lemma {:induction false} SplitWhole(s: string, sep: char)
    requires sep !in s
    ensures Split(s, sep) == [s]
  {
    if s != "" {
      SplitWhole(s[1..], sep);
      assert [s[0]] + s[1..] == s;
    }
  }

  function Joined(parts: seq<string>, sep: char): string
    requires parts != []
  {
    if |parts| == 1 then parts[0] else parts[0] + [sep] + Joined(parts[1..], sep)
  }

  // Together with SplitParts: the parts are the stretches between the separators.
  lemma {:induction false} SplitJoins(s: string, sep: char)
    ensures Joined(Split(s, sep), sep) == s
  {
    if s != "" {
      SplitJoins(s[1..], sep);
      var rest := Split(s[1..], sep);
      if s[0] == sep {
        assert Split(s, sep)[1..] == rest;
      } else {
        assert Split(s, sep)[1..] == rest[1..];
      }
    }
  }

  // A part holds no separator, and nothing that was not in the string.
  lemma {:induction false} SplitParts(s: string, sep: char, i: nat)
    requires i < |Split(s, sep)|
    ensures var part := Split(s, sep)[i]; sep !in part && forall c :: c in part ==> c in s
  {
    if s != "" {
      if s[0] == sep {
        if i > 0 { SplitParts(s[1..], sep, i - 1); }
      } else {
        SplitParts(s[1..], sep, i);
      }
    }
  }

  // ----- the parser -----

  // A segment's value is what stands between its first and its second '='.
  function Entry(segment: string): Option<(string, string)> {
    if |segment| == 0 then None
    else
      var kv := Split(segment, '=');
      if |kv[0]| == 0 then None else Some((kv[0], if |kv| > 1 then kv[1] else ""))
  }

  function Insert(m: map<string, string>, segment: string): map<string, string> {
    var e := Entry(segment);
    if e.None? then m else m[e.value.0 := e.value.1]
  }

  function InsertAll(m: map<string, string>, segments: seq<string>): map<string, string> {
    if segments == [] then m
    else Insert(InsertAll(m, segments[..|segments| - 1]), segments[|segments| - 1])
  }

  function Parse(params: string): map<string, string> { InsertAll(map[], Split(params, ';')) }

  lemma {:induction false} InsertAllMerges(m: map<string, string>, a: seq<string>, b: seq<string>)
    ensures InsertAll(m, a + b) == InsertAll(m, a) + InsertAll(map[], b)
    decreases |b|
  {
    if b == [] {
      assert a + b == a;
    } else {
      var last := |b| - 1;
      InsertAllMerges(m, a, b[..last]);
      assert (a + b)[..|a + b| - 1] == a + b[..last];
    }
  }

  /** Two strings joined by ';' parse as the first overridden by the second. */
  lemma ParseConcatenated(a: string, b: string)
    ensures Parse(a + ";" + b) == Parse(a) + Parse(b)
  {
    SplitConcatenated(a, ';', b);
    InsertAllMerges(map[], Split(a, ';'), Split(b, ';'));
  }

  method ParseAudioParams(params: string) returns (m: map<string, string>)
    ensures m == Parse(params) && Printable(m)
  {
    var segments := Split(params, ';');
    m := map[];
    for i := 0 to |segments|
      invariant m == InsertAll(map[], segments[..i])
    {
      assert segments[..i + 1][..i] == segments[..i];
      var segment := segments[i];
      if |segment| == 0 { continue; }
      var kv := Split(segment, '=');
      if |kv[0]| == 0 { continue; }
      m := m[kv[0] := if |kv| > 1 then kv[1] else ""];
    }
    assert segments[..|segments|] == segments;
    ParsedIsPrintable(params);
  }

  // ----- the printer -----

  predicate Clean(s: string) { ';' !in s && '=' !in s }

  predicate Printable(m: map<string, string>) {
    forall k :: k in m ==> k != "" && Clean(k) && Clean(m[k])
  }

  // The pairs in the order in which the hash map yields its keys.
  function Printed(m: map<string, string>, order: seq<string>): string
    requires forall k :: k in order ==> k in m
  {
    if order == [] then ""
    else order[0] + "=" + m[order[0]] + ";" + Printed(m, order[1..])
  }

  ghost predicate Enumerates(order: seq<string>, m: map<string, string>) {
    && (forall k :: k in order <==> k in m)
    && forall i, j :: 0 <= i < j < |order| ==> order[i] != order[j]
  }

  lemma ParseOnePair(k: string, v: string)
    requires k != "" && Clean(k) && Clean(v)
    ensures Parse(k + "=" + v) == map[k := v]
  {
    SplitWhole(k + "=" + v, ';');
    SplitConcatenated(k, '=', v);
    SplitWhole(k, '=');
    SplitWhole(v, '=');
    assert InsertAll(map[], [k + "=" + v][..0]) == map[];
  }

  lemma EntryOfKey(k: string)
    requires k != "" && '=' !in k
    ensures Entry(k) == Some((k, ""))
  {
    SplitWhole(k, '=');
  }

  lemma EntryOfPair(k: string, tail: string, v: string)
    requires k != "" && '=' !in k && Split(tail, '=')[0] == v
    ensures Entry(k + "=" + tail) == Some((k, v))
  {
    SplitConcatenated(k, '=', tail);
    SplitWhole(k, '=');
  }

  lemma EntryWithoutKey(rest: string)
    ensures Entry("=" + rest).None?
  {
    SplitConcatenated("", '=', rest);
    assert "" + ['='] + rest == "=" + rest;
  }

  lemma FirstPart(v: string, rest: string)
    requires '=' !in v
    ensures Split(v + "=" + rest, '=')[0] == v
  {
    SplitConcatenated(v, '=', rest);
    SplitWhole(v, '=');
  }

  /** Single segments: a key without '=' has the empty value, the value ends at a second '=', and a segment
      without a key is dropped. */
  lemma ParseShapes(k: string, v: string, rest: string)
    requires k != "" && Clean(k) && Clean(v) && ';' !in rest
    ensures Parse(k) == map[k := ""]
    ensures Parse(k + "=" + (v + "=" + rest)) == map[k := v]
    ensures Parse("=" + rest) == map[]
  {
    EntryOfKey(k);
    ParseOneSegment(k);
    FirstPart(v, rest);
    EntryOfPair(k, v + "=" + rest, v);
    ParseOneSegment(k + "=" + (v + "=" + rest));
    EntryWithoutKey(rest);
    ParseOneSegment("=" + rest);
  }

  lemma ParseOneSegment(segment: string)
    requires ';' !in segment
    ensures Parse(segment) == Insert(map[], segment)
  {
    SplitWhole(segment, ';');
    assert [segment][..0] == [];
  }

  lemma {:induction false} ParsePrinted(m: map<string, string>, order: seq<string>)
    requires Printable(m) && forall k :: k in order ==> k in m
    ensures Parse(Printed(m, order)) == map k | k in order :: m[k]
  {
    if order == [] {
      assert Split("", ';')[..0] == [];
    } else {
      var k := order[0];
      ParsePrinted(m, order[1..]);
      ParseOnePair(k, m[k]);
      ParseConcatenated(k + "=" + m[k], Printed(m, order[1..]));
    }
  }

  lemma {:induction false} InsertedIsPrintable(segments: seq<string>)
    requires forall i :: 0 <= i < |segments| ==> ';' !in segments[i]
    ensures Printable(InsertAll(map[], segments))
  {
    if segments != [] {
      var last := segments[|segments| - 1];
      InsertedIsPrintable(segments[..|segments| - 1]);
      var kv := Split(last, '=');
      SplitParts(last, '=', 0);
      if |kv| > 1 { SplitParts(last, '=', 1); }
    }
  }

  // Nothing but printable maps ever comes out of the parser.
  lemma ParsedIsPrintable(params: string)
    ensures Printable(Parse(params))
  {
    var segments := Split(params, ';');
    forall i | 0 <= i < |segments|
      ensures ';' !in segments[i]
    {
      SplitParts(params, ';', i);
    }
    InsertedIsPrintable(segments);
  }

  /** A printed map is parsed back, in whatever order it was printed, exactly when its keys are not
      empty and neither keys nor values hold a separator. */
  lemma RoundTrip(m: map<string, string>, order: seq<string>)
    requires Enumerates(order, m)
    ensures Parse(Printed(m, order)) == m <==> Printable(m)
  {
    ParsedIsPrintable(Printed(m, order));
    if Printable(m) { ParsePrinted(m, order); }
  }

  /** What was parsed once survives printing and parsing. */
  lemma ParsePrintParse(params: string, order: seq<string>)
    requires Enumerates(order, Parse(params))
    ensures Parse(Printed(Parse(params), order)) == Parse(params)
  {
    ParsedIsPrintable(params);
    RoundTrip(Parse(params), order);
  }

  lemma {:induction false} PrintedAppends(m: map<string, string>, order: seq<string>, k: string)
    requires k in m && forall j :: j in order ==> j in m
    ensures Printed(m, order + [k]) == Printed(m, order) + (k + "=" + m[k] + ";")
  {
    if order == [] {
      assert order + [k] == [k];
    } else {
      PrintedAppends(m, order[1..], k);
      assert (order + [k])[1..] == order[1..] + [k];
    }
  }

  method PrintParams(m: map<string, string>) returns (result: string, ghost order: seq<string>)
    ensures Enumerates(order, m) && result == Printed(m, order)
    ensures Parse(result) == m <==> Printable(m)
  {
    result, order := "", [];
    var left := m.Keys;
    while left != {}
      invariant left <= m.Keys && forall k :: k in order <==> k in m && k !in left
      invariant forall i, j :: 0 <= i < j < |order| ==> order[i] != order[j]
      invariant result == Printed(m, order)
      decreases |left|
    {
      var k :| k in left;
      PrintedAppends(m, order, k);
      result := result + (k + "=" + m[k] + ";");
      order := order + [k];
      left := left - {k};
    }
    RoundTrip(m, order);
  }
}
