/**
 * The string operations of Python 2 that the harness relies on: `str.strip()`,
 * `str.split()` (on whitespace), `str.split(sep)` for a one-character
 * separator, and the comma-terminated rows that the metric files are made of.
 */
module Text {

  /** The characters `str.strip()` and `str.split()` treat as whitespace. */
  predicate IsSpace(c: char) {
    c == ' ' || c == '\t' || c == '\n' || c == '\r' || c == '\U{000B}' || c == '\U{000C}'
  }

  predicate NoSpace(s: string) {
    forall k :: 0 <= k < |s| ==> !IsSpace(s[k])
  }

  /** `s.lstrip()`: what is left of `s` after its leading whitespace. */
  function TrimStart(s: string): string {
    if s != [] && IsSpace(s[0]) then TrimStart(s[1..]) else s
  }

  /** `s.rstrip()`: what is left of `s` before its trailing whitespace. */
  function TrimEnd(s: string): string {
    if s != [] && IsSpace(s[|s| - 1]) then TrimEnd(s[..|s| - 1]) else s
  }

  /** `lstrip` removes a whitespace prefix and stops at the first other character. */
  lemma {:induction false} TrimStartSpec(s: string)
    ensures var r := TrimStart(s);
      |r| <= |s| && r == s[|s| - |r|..]
      && (forall k :: 0 <= k < |s| - |r| ==> IsSpace(s[k]))
      && (r != [] ==> !IsSpace(r[0]))
  {
    if s != [] && IsSpace(s[0]) {
      var t := s[1..];
      TrimStartSpec(t);
      var r := TrimStart(t);
      assert TrimStart(s) == r;
      assert t[|t| - |r|..] == s[|s| - |r|..];
      forall k | 0 <= k < |s| - |r| ensures IsSpace(s[k]) {
        if k > 0 {
          assert s[k] == t[k - 1];
        }
      }
    }
  }

  /** `rstrip` removes a whitespace suffix and stops at the last other character. */
  lemma {:induction false} TrimEndSpec(s: string)
    ensures var r := TrimEnd(s);
      |r| <= |s| && r == s[..|r|]
      && (forall k :: |r| <= k < |s| ==> IsSpace(s[k]))
      && (r != [] ==> !IsSpace(r[|r| - 1]))
  {
    if s != [] && IsSpace(s[|s| - 1]) {
      TrimEndSpec(s[..|s| - 1]);
    }
  }

  /** `s.strip()`. */
  function Strip(s: string): string {
    TrimEnd(TrimStart(s))
  }

  /**
   * What `strip` returns is the slice of `s` between its leading and its
   * trailing whitespace: it neither starts nor ends with whitespace, and all
   * it removed was whitespace.
   */
  lemma StripSlice(s: string)
    ensures var r := Strip(s);
      exists i, j :: 0 <= i <= j <= |s| && r == s[i..j]
        && (forall k :: 0 <= k < i ==> IsSpace(s[k]))
        && (forall k :: j <= k < |s| ==> IsSpace(s[k]))
        && (r != [] ==> !IsSpace(r[0]) && !IsSpace(r[|r| - 1]))
  {
    var t := TrimStart(s);
    var r := TrimEnd(t);
    TrimStartSpec(s);
    TrimEndSpec(t);
    var i := |s| - |t|;
    var j := i + |r|;
    assert r == s[i..j];
    forall k | j <= k < |s| ensures IsSpace(s[k]) {
      assert s[k] == t[k - i];
    }
  }

  /** A string with neither leading nor trailing whitespace. */
  predicate Stripped(s: string) {
    s == [] || (!IsSpace(s[0]) && !IsSpace(s[|s| - 1]))
  }

  /** What `strip` returns is stripped. */
  lemma StripStripped(s: string)
    ensures Stripped(Strip(s))
  {
    var t := TrimStart(s);
    var r := TrimEnd(t);
    TrimStartSpec(s);
    TrimEndSpec(t);
    if r != [] {
      assert r[0] == t[0];
    }
  }

  /** `strip` leaves a stripped string as it is. */
  lemma StrippedFixed(s: string)
    requires Stripped(s)
    ensures Strip(s) == s
  {
  }

  /** Stripping twice changes nothing more than stripping once. */
  lemma StripIdempotent(s: string)
    ensures Strip(Strip(s)) == Strip(s)
  {
    StripStripped(s);
    StrippedFixed(Strip(s));
  }

  /** The number of leading non-whitespace characters of `s`. */
  function WordLength(s: string): (n: nat)
    ensures n <= |s| && NoSpace(s[..n])
    ensures n < |s| ==> IsSpace(s[n])
  {
    if s == [] || IsSpace(s[0]) then 0
    else
      var n := 1 + WordLength(s[1..]);
      assert s[..n] == [s[0]] + s[1..][..n - 1];
      n
  }

  /**
   * `s.split()` with no separator: the maximal runs of non-whitespace
   * characters of `s`, in order.
   */
  function Words(s: string): (ws: seq<string>)
    ensures forall k :: 0 <= k < |ws| ==> ws[k] != [] && NoSpace(ws[k])
    decreases |s|
  {
    TrimStartSpec(s);
    var t := TrimStart(s);
    if t == [] then []
    else
      var n := WordLength(t);
      [t[..n]] + Words(t[n..])
  }

  /** `sep.join(ws)` for a one-character separator. */
  function Join(ws: seq<string>, sep: char): string
    requires |ws| >= 1
  {
    if |ws| == 1 then ws[0] else ws[0] + [sep] + Join(ws[1..], sep)
  }

  /** Leading whitespace never matters to `split()`. */
  lemma {:induction false} WordsAfterSpace(c: char, s: string)
    requires IsSpace(c)
    ensures Words([c] + s) == Words(s)
  {
    assert ([c] + s)[1..] == s;
  }

  /**
   * `split()` undoes joining with a single space: joining whitespace-free,
   * non-empty tokens with " " and splitting again gives the tokens back.
   */
  lemma {:induction false} WordsOfJoin(ws: seq<string>)
    requires |ws| >= 1
    requires forall k :: 0 <= k < |ws| ==> ws[k] != [] && NoSpace(ws[k])
    ensures Words(Join(ws, ' ')) == ws
  {
    var w := ws[0];
    if |ws| == 1 {
      WordsOfWord(w);
    } else {
      var tail := ws[1..];
      var rest := Join(tail, ' ');
      var after: string := [' '] + rest;
      assert Words(after) == tail by {
        WordsAfterSpace(' ', rest);
        WordsOfJoin(tail);
      }
      assert Join(ws, ' ') == w + after;
      assert Words(w + after) == [w] + tail by {
        WordsOfWordThen(w, after);
      }
      assert ws == [w] + tail;
    }
  }

  /** A single non-empty whitespace-free string is one token. */
  lemma WordsOfWord(w: string)
    requires w != [] && NoSpace(w)
    ensures Words(w) == [w]
  {
    WordsOfWordThen(w, []);
    assert w + [] == w;
  }

  /** A whitespace-free word followed by whitespace (or nothing) is the first token. */
  lemma WordsOfWordThen(w: string, rest: string)
    requires w != [] && NoSpace(w)
    requires rest == [] || IsSpace(rest[0])
    ensures Words(w + rest) == [w] + Words(rest)
  {
    var s := w + rest;
    assert s[0] == w[0];
    assert TrimStart(s) == s;
    WordPrefix(w, rest);
    assert s[|w|..] == rest;
  }

  /** A whitespace-free word followed by whitespace (or nothing) is read whole. */
  lemma {:induction false} WordPrefix(w: string, rest: string)
    requires w != [] && NoSpace(w)
    requires rest == [] || IsSpace(rest[0])
    ensures WordLength(w + rest) == |w| && (w + rest)[..|w|] == w
  {
    if |w| > 1 {
      assert (w + rest)[1..] == w[1..] + rest;
      WordPrefix(w[1..], rest);
    } else {
      assert (w + rest)[1..] == rest;
    }
  }

  /** The number of occurrences of `c` in `s`. */
  function Occurrences(s: string, c: char): nat {
    if s == [] then 0 else (if s[0] == c then 1 else 0) + Occurrences(s[1..], c)
  }

  /**
   * `s.split(sep)` for a one-character separator: there is always at least
   * one part, one more than there are separators, and no part holds it.
   */
  function Split(s: string, sep: char): (parts: seq<string>)
    ensures |parts| == Occurrences(s, sep) + 1
    ensures forall k :: 0 <= k < |parts| ==> sep !in parts[k]
  {
    if s == [] then [""]
    else
      var rest := Split(s[1..], sep);
      if s[0] == sep then [""] + rest
      else [[s[0]] + rest[0]] + rest[1..]
  }

  /** Splitting and joining again gives back the string. */
  lemma {:induction false} JoinOfSplit(s: string, sep: char)
    ensures Join(Split(s, sep), sep) == s
  {
    if s != [] {
      var rest := Split(s[1..], sep);
      JoinOfSplit(s[1..], sep);
      if s[0] != sep {
        var ps := Split(s, sep);
        assert ps[0] == [s[0]] + rest[0];
        if |rest| == 1 {
          assert Join(ps, sep) == [s[0]] + rest[0];
        } else {
          assert ps[1..] == rest[1..];
          assert Join(rest, sep) == rest[0] + [sep] + Join(rest[1..], sep);
        }
      } else {
        assert Split(s, sep) == [""] + rest;
        assert ([""] + rest)[1..] == rest;
      }
    }
  }

  /** Splitting undoes joining parts that do not hold the separator. */
  lemma {:induction false} SplitOfJoin(ps: seq<string>, sep: char)
    requires |ps| >= 1
    requires forall k :: 0 <= k < |ps| ==> sep !in ps[k]
    ensures Split(Join(ps, sep), sep) == ps
  {
    if |ps| == 1 {
      SplitFree(ps[0], [], sep);
      assert ps[0] + [] == ps[0];
    } else {
      var rest := Join(ps[1..], sep);
      assert Join(ps, sep) == ps[0] + ([sep] + rest);
      SplitOfJoin(ps[1..], sep);
      assert Split([sep] + rest, sep) == [""] + Split(rest, sep) by {
        assert ([sep] + rest)[1..] == rest;
      }
      SplitFree(ps[0], [sep] + rest, sep);
      assert ps[0] + "" == ps[0];
      assert ps == [ps[0]] + ps[1..];
    }
  }

  /** A separator-free prefix becomes the start of the first part. */
  lemma {:induction false} SplitFree(w: string, rest: string, sep: char)
    requires sep !in w
    ensures var ps := Split(rest, sep);
      Split(w + rest, sep) == [w + ps[0]] + ps[1..]
  {
    if w == [] {
      var ps := Split(rest, sep);
      assert w + rest == rest && w + ps[0] == ps[0];
      assert ps == [ps[0]] + ps[1..];
    } else {
      assert (w + rest)[1..] == w[1..] + rest;
      assert w[0] in w;
      SplitFree(w[1..], rest, sep);
      assert [w[0]] + (w[1..] + Split(rest, sep)[0]) == w + Split(rest, sep)[0];
    }
  }

  /**
   * The rows of the metric files: every field followed by a comma,
   * as built by `row += field + ','` in a loop.
   */
  function Cells(fields: seq<string>): string {
    if fields == [] then "" else fields[0] + "," + Cells(fields[1..])
  }

  /** Appending one field extends the row by that field and a comma. */
  lemma {:induction false} CellsSnoc(fields: seq<string>, f: string)
    ensures Cells(fields + [f]) == Cells(fields) + f + ","
  {
    if fields != [] {
      assert (fields + [f])[1..] == fields[1..] + [f];
      CellsSnoc(fields[1..], f);
    } else {
      assert [f][1..] == [];
    }
  }

  /** A row is the fields joined by commas, with an empty last part. */
  lemma {:induction false} CellsAsJoin(fields: seq<string>)
    ensures Cells(fields) == Join(fields + [""], ',')
  {
    if fields != [] {
      CellsAsJoin(fields[1..]);
      assert (fields + [""])[1..] == fields[1..] + [""];
    }
  }

  /**
   * Reading a row back: splitting it at its commas gives the fields and
   * one empty string after the last comma, when no field holds a comma.
   */
  lemma RowRoundTrip(fields: seq<string>)
    requires forall k :: 0 <= k < |fields| ==> ',' !in fields[k]
    ensures Split(Cells(fields), ',') == fields + [""]
  {
    CellsAsJoin(fields);
    SplitOfJoin(fields + [""], ',');
  }

  /** A row has exactly one comma per field when no field holds one. */
  lemma RowWidth(fields: seq<string>)
    requires forall k :: 0 <= k < |fields| ==> ',' !in fields[k]
    ensures Occurrences(Cells(fields), ',') == |fields|
  {
    RowRoundTrip(fields);
  }
}
