/**
 * Turning one stripped text line into sample values: the line is cut at every
 * comma (Python's `str.split(',')`) and every field must parse, or the whole
 * line is rejected.
 */
module LineParser {
  import opened Wrappers

  /** The field separator of an incoming line. */
  const Comma: char := ','

  /** The pieces of `s` between occurrences of `sep`; like Python's `split`, there is always at least one. */
  function Split(s: string, sep: char): (r: seq<string>)
    ensures |r| >= 1
    ensures forall i :: 0 <= i < |r| ==> sep !in r[i]
    decreases |s|
  {
    if |s| == 0 then [""]
    else
      var rest := Split(s[1..], sep);
      if s[0] == sep then [""] + rest
      else [[s[0]] + rest[0]] + rest[1..]
  }

  /** The inverse of `Split`: the pieces glued back together with `sep` between them. */
  function Join(parts: seq<string>, sep: char): string
    requires |parts| >= 1
    decreases |parts|
  {
    if |parts| == 1 then parts[0] else parts[0] + [sep] + Join(parts[1..], sep)
  }

  /** Splitting loses nothing: joining the pieces restores the line. */
  lemma {:induction false} JoinSplit(s: string, sep: char)
    ensures Join(Split(s, sep), sep) == s
    decreases |s|
  {
    if |s| > 0 {
      var rest := Split(s[1..], sep);
      JoinSplit(s[1..], sep);
      if s[0] == sep {
        assert Split(s, sep) == [""] + rest;
        assert (([""] + rest)[1..]) == rest;
        assert [sep] + s[1..] == s;
      } else {
        var parts := [[s[0]] + rest[0]] + rest[1..];
        assert Split(s, sep) == parts;
        if |rest| == 1 {
          assert [s[0]] + s[1..] == s;
        } else {
          assert parts[1..] == rest[1..];
          assert Join(rest, sep) == rest[0] + [sep] + Join(rest[1..], sep);
          assert [s[0]] + s[1..] == s;
        }
      }
    }
  }

  /** A separator-free prefix `a` is glued onto the first piece of whatever follows it. */
  lemma {:induction false} SplitPrefix(a: string, t: string, sep: char)
    requires sep !in a
    ensures Split(a + t, sep) == [a + Split(t, sep)[0]] + Split(t, sep)[1..]
    decreases |a|
  {
    if |a| == 0 {
      assert a + t == t;
      assert a + Split(t, sep)[0] == Split(t, sep)[0];
    } else {
      assert (a + t)[0] == a[0];
      assert (a + t)[1..] == a[1..] + t;
      SplitPrefix(a[1..], t, sep);
      assert [a[0]] + (a[1..] + Split(t, sep)[0]) == a + Split(t, sep)[0];
    }
  }

  /** Joining separator-free pieces and splitting again gives the same pieces back. */
  lemma {:induction false} SplitJoin(parts: seq<string>, sep: char)
    requires |parts| >= 1
    requires forall i :: 0 <= i < |parts| ==> sep !in parts[i]
    ensures Split(Join(parts, sep), sep) == parts
    decreases |parts|
  {
    if |parts| == 1 {
      SplitPrefix(parts[0], "", sep);
      assert parts[0] + "" == parts[0];
    } else {
      var j := Join(parts[1..], sep);
      SplitJoin(parts[1..], sep);
      var t := [sep] + j;
      assert t[1..] == j;
      assert Split(t, sep) == [""] + parts[1..];
      SplitPrefix(parts[0], t, sep);
      assert parts[0] + t == Join(parts, sep);
      assert parts[0] + "" == parts[0];
      assert [parts[0]] + parts[1..] == parts;
    }
  }

  /** A trailing separator adds one empty last piece: `"1.0,"` splits into `["1.0", ""]`. */
  lemma {:induction false} SplitTrailingSeparator(s: string, sep: char)
    ensures Split(s + [sep], sep) == Split(s, sep) + [""]
    decreases |s|
  {
    if |s| == 0 {
      assert s + [sep] == [sep];
      assert [sep][1..] == "";
    } else {
      assert (s + [sep])[0] == s[0];
      assert (s + [sep])[1..] == s[1..] + [sep];
      SplitTrailingSeparator(s[1..], sep);
      var rest := Split(s[1..], sep);
      if s[0] != sep {
        assert (rest + [""])[1..] == rest[1..] + [""];
      }
    }
  }

  /**
   * All-or-nothing parsing of the fields (`[float(v) for v in fields]`):
   * a value per field when every field parses, otherwise nothing.
   */
  function ParseAll<V>(fields: seq<string>, parse: string -> Option<V>): (r: Option<seq<V>>)
    ensures r.Some? <==> forall i :: 0 <= i < |fields| ==> parse(fields[i]).Some?
    ensures r.Some? ==> |r.value| == |fields|
    ensures r.Some? ==> forall i :: 0 <= i < |fields| ==> r.value[i] == parse(fields[i]).value
    decreases |fields|
  {
    if |fields| == 0 then Some([])
    else
      match parse(fields[0])
      case None => None
      case Some(v) =>
        match ParseAll(fields[1..], parse)
        case None => None
        case Some(vs) => Some([v] + vs)
  }

  /** The values of a comma-separated line, or None when some field does not parse. */
  function ParseLine<V>(line: string, parse: string -> Option<V>): (r: Option<seq<V>>)
    ensures r.Some? ==> |r.value| == |Split(line, Comma)| >= 1
    ensures r.Some? ==> forall i :: 0 <= i < |Split(line, Comma)| ==> parse(Split(line, Comma)[i]).Some?
    ensures (forall i :: 0 <= i < |Split(line, Comma)| ==> parse(Split(line, Comma)[i]).Some?) ==> r.Some?
  {
    ParseAll(Split(line, Comma), parse)
  }

  /** A line ending in a comma has an empty last field, so it is rejected whenever the empty field is. */
  lemma TrailingCommaRejected<V>(s: string, parse: string -> Option<V>)
    requires parse("") == None
    ensures ParseLine(s + [Comma], parse) == None
  {
    SplitTrailingSeparator(s, Comma);
    var fields := Split(s + [Comma], Comma);
    assert fields[|fields| - 1] == "";
  }
}
