/**
 * `glove2npy`: the lines of a GloVe text file become a dictionary from each
 * line's first token to the vector its other tokens convert to. Reading
 * the file, converting tokens to float32 and saving the dictionary are not
 * modelled; the conversion is a parameter that may fail.
 */
module Glove {
  import opened Wrappers
  import opened Text
  import opened MapUpdates

  /** `x[:-1]`: the line without its last character; an empty line stays empty. */
  function DropLast(x: string): (r: string)
    ensures x == [] ==> r == []
    ensures x != [] ==> r + [x[|x| - 1]] == x
  {
    if x == [] then [] else x[..|x| - 1]
  }

  /** A line read with its newline gives back exactly the line. */
  lemma DropLastOfLine(line: string)
    ensures DropLast(line + "\n") == line
  {
    var r := DropLast(line + "\n");
    assert r + ['\n'] == line + "\n";
    assert r == (r + ['\n'])[..|r|];
  }

  /**
   * One line, already stripped of its last character: `split()`, the word
   * at `v[0]` (an IndexError when the line has no token) and the vector of
   * `v[1:]` (a ValueError when `convert` rejects the tokens).
   */
  function LineEntry<V>(line: string, convert: seq<string> -> Option<V>): (r: Result<(string, V), PyError>)
    ensures r.Err? <==> Words(line) == [] || convert(Words(line)[1..]).None?
    ensures Words(line) == [] ==> r == Err(IndexError("list index out of range"))
    ensures r.Ok? ==> r.value.0 == Words(line)[0] && Some(r.value.1) == convert(Words(line)[1..])
  {
    var v := Words(line);
    if v == [] then Err(IndexError("list index out of range"))
    else
      match convert(v[1..])
      case None => Err(ValueError("could not convert string to float"))
      case Some(vec) => Ok((v[0], vec))
  }

  /** Every line (after dropping its last character) parses and converts. */
  predicate AllParse<V>(lines: seq<string>, convert: seq<string> -> Option<V>) {
    forall k :: 0 <= k < |lines| ==> LineEntry(DropLast(lines[k]), convert).Ok?
  }

  /** The `vecs_dict[word] = vec` assignments of the loop, in order. */
  function Entries<V>(lines: seq<string>, convert: seq<string> -> Option<V>): seq<(string, V)>
    requires AllParse(lines, convert)
  {
    seq(|lines|, k requires 0 <= k < |lines| && AllParse(lines, convert) =>
      LineEntry(DropLast(lines[k]), convert).value)
  }

  /** The word a raw line is stored under (empty when it has no token). */
  function WordOf(raw: string): string {
    var v := Words(DropLast(raw));
    if v == [] then "" else v[0]
  }

  /** One more line that parses extends the assignments by its entry. */
  lemma EntriesSnoc<V>(lines: seq<string>, n: nat, convert: seq<string> -> Option<V>)
    requires n < |lines| && AllParse(lines[..n], convert)
    requires LineEntry(DropLast(lines[n]), convert).Ok?
    ensures AllParse(lines[..n + 1], convert)
    ensures Entries(lines[..n + 1], convert) == Entries(lines[..n], convert) + [LineEntry(DropLast(lines[n]), convert).value]
  {
    assert lines[..n + 1] == lines[..n] + [lines[n]];
  }

  /** Every line of a parsing prefix parses. */
  lemma PrefixParses<V>(lines: seq<string>, n: nat, convert: seq<string> -> Option<V>)
    requires n <= |lines| && AllParse(lines[..n], convert)
    ensures forall j :: 0 <= j < n ==> LineEntry(DropLast(lines[j]), convert).Ok?
  {
    forall j | 0 <= j < n ensures LineEntry(DropLast(lines[j]), convert).Ok? {
      assert lines[..n][j] == lines[j];
    }
  }

  /** The counter values at which a progress line is printed when `n` lines are processed. */
  function Checkpoints(n: nat): seq<nat> {
    seq(n / 1000, k requires 0 <= k => 1000 * (k + 1))
  }

  /** Progress is reported at every multiple of 1000 up to `n`, and nowhere else, in increasing order. */
  lemma CheckpointsSpec(n: nat)
    ensures forall x: nat :: x in Checkpoints(n) <==> 1 <= x <= n && x % 1000 == 0
    ensures forall a, b :: 0 <= a < b < |Checkpoints(n)| ==> Checkpoints(n)[a] < Checkpoints(n)[b]
  {
    var cs := Checkpoints(n);
    forall x: nat | 1 <= x <= n && x % 1000 == 0 ensures x in cs {
      var k := x / 1000 - 1;
      assert 0 <= k < n / 1000 && cs[k] == x;
    }
    forall x: nat | x in cs ensures 1 <= x <= n && x % 1000 == 0 {
      var k :| 0 <= k < |cs| && cs[k] == x;
      assert k + 1 <= n / 1000;
    }
  }

  /** One processed line extends the report by the new counter value exactly when it is a multiple of 1000. */
  lemma CheckpointsStep(i: nat)
    ensures (i + 1) % 1000 == 0 ==> Checkpoints(i + 1) == Checkpoints(i) + [i + 1]
    ensures (i + 1) % 1000 != 0 ==> Checkpoints(i + 1) == Checkpoints(i)
  {
    if (i + 1) % 1000 == 0 {
      assert (i + 1) / 1000 == i / 1000 + 1;
    } else {
      assert (i + 1) / 1000 == i / 1000;
    }
  }

  /** What the loop leaves: the dictionary, the counter `i` and the progress reports printed. */
  datatype Loaded<V> = Loaded(vectors: map<string, V>, count: nat, progress: seq<nat>)

  /**
   * `glove2npy` from `readlines()` on: every line loses its last character,
   * then each is split and stored under its first token. The first line
   * that fails stops the run with its error.
   */
  method Glove2Dict<V>(lines: seq<string>, convert: seq<string> -> Option<V>) returns (r: Result<Loaded<V>, PyError>)
    ensures r.Ok? <==> AllParse(lines, convert)
    ensures r.Err? ==> exists k :: 0 <= k < |lines| && LineEntry(DropLast(lines[k]), convert) == Err(r.error)
                                   && forall j :: 0 <= j < k ==> LineEntry(DropLast(lines[j]), convert).Ok?
    ensures r.Ok? ==> r.value == Loaded(Updates(map[], Entries(lines, convert)), |lines|, Checkpoints(|lines|))
  {
    var vectors := seq(|lines|, k requires 0 <= k < |lines| => DropLast(lines[k]));
    var dict: map<string, V> := map[];
    var progress: seq<nat> := [];
    var i: nat := 0;
    for n := 0 to |vectors|
      invariant i == n
      invariant AllParse(lines[..n], convert)
      invariant dict == Updates(map[], Entries(lines[..n], convert))
      invariant progress == Checkpoints(i)
    {
      var entry := LineEntry(vectors[n], convert);
      if entry.Err? {
        PrefixParses(lines, n, convert);
        return Err(entry.error);
      }
      EntriesSnoc(lines, n, convert);
      UpdatesSnoc(map[], Entries(lines[..n], convert), entry.value);
      dict := dict[entry.value.0 := entry.value.1];
      CheckpointsStep(i);
      i := i + 1;
      if i % 1000 == 0 {
        progress := progress + [i];
      }
    }
    assert lines[..|lines|] == lines;
    r := Ok(Loaded(dict, i, progress));
  }

  /** The key of an entry is the word of its line. */
  lemma EntryWords<V>(lines: seq<string>, convert: seq<string> -> Option<V>)
    requires AllParse(lines, convert)
    ensures forall k :: 0 <= k < |lines| ==> Entries(lines, convert)[k].0 == WordOf(lines[k])
  {
    forall k | 0 <= k < |lines| ensures Entries(lines, convert)[k].0 == WordOf(lines[k]) {
      var e := LineEntry(DropLast(lines[k]), convert);
      assert e.Ok?;
      assert Entries(lines, convert)[k] == e.value;
    }
  }

  /** Duplicated words collapse: the dictionary has at most one entry per line. */
  lemma GloveSize<V>(lines: seq<string>, convert: seq<string> -> Option<V>)
    requires AllParse(lines, convert)
    ensures |Updates(map[], Entries(lines, convert)).Keys| <= |lines|
  {
    UpdatesSize(map[], Entries(lines, convert));
  }

  /** The dictionary's keys are the words read, and nothing else. */
  lemma GloveKeys<V>(lines: seq<string>, convert: seq<string> -> Option<V>)
    requires AllParse(lines, convert)
    ensures Updates(map[], Entries(lines, convert)).Keys == (set k | 0 <= k < |lines| :: WordOf(lines[k]))
  {
    var kvs := Entries(lines, convert);
    UpdatesKeys(map[], kvs);
    EntryWords(lines, convert);
    KeysAsImage(kvs, lines, WordOf);
  }

  /** A later line with the same word overwrites the earlier one: a word keeps the vector of its last line. */
  lemma GloveLastWins<V>(lines: seq<string>, convert: seq<string> -> Option<V>, k: nat)
    requires AllParse(lines, convert) && k < |lines|
    requires forall j :: k < j < |lines| ==> WordOf(lines[j]) != WordOf(lines[k])
    ensures var d := Updates(map[], Entries(lines, convert));
      var v := Words(DropLast(lines[k]));
      v[0] in d && Some(d[v[0]]) == convert(v[1..])
  {
    UpdatesLastWins(map[], Entries(lines, convert), k);
  }

  /**
   * A well-formed GloVe line, the word and its values separated by single
   * spaces and ended by a newline, parses back into that word and the
   * conversion of those values.
   */
  lemma WellFormedLine<V>(w: string, values: seq<string>, convert: seq<string> -> Option<V>)
    requires w != [] && NoSpace(w)
    requires forall k :: 0 <= k < |values| ==> values[k] != [] && NoSpace(values[k])
    requires convert(values).Some?
    ensures LineEntry(DropLast(Join([w] + values, ' ') + "\n"), convert) == Ok((w, convert(values).value))
  {
    var ws := [w] + values;
    DropLastOfLine(Join(ws, ' '));
    WordsOfJoin(ws);
    assert ws[1..] == values;
  }

  /** Dropping the last character of a joined line shortens its last token. */
  lemma {:induction false} DropLastOfJoin(ws: seq<string>)
    requires |ws| >= 1 && |ws[|ws| - 1]| >= 1
    ensures DropLast(Join(ws, ' ')) == Join(ws[..|ws| - 1] + [DropLast(ws[|ws| - 1])], ' ')
    decreases |ws|
  {
    if |ws| > 1 {
      var tail := ws[1..];
      DropLastOfJoin(tail);
      var rest := Join(tail, ' ');
      assert rest != [] by {
        JoinNonEmpty(tail);
      }
      var shorter := ws[..|ws| - 1] + [DropLast(ws[|ws| - 1])];
      assert shorter[1..] == tail[..|tail| - 1] + [DropLast(tail[|tail| - 1])];
      assert Join(ws, ' ') == ws[0] + [' '] + rest;
      assert DropLast(ws[0] + [' '] + rest) == ws[0] + [' '] + DropLast(rest) by {
        var full := ws[0] + [' '] + rest;
        assert full[..|full| - 1] == ws[0] + [' '] + rest[..|rest| - 1];
      }
    }
  }

  /** A join whose last part is not empty is not empty. */
  lemma {:induction false} JoinNonEmpty(ws: seq<string>)
    requires |ws| >= 1 && |ws[|ws| - 1]| >= 1
    ensures |Join(ws, ' ')| >= 1
    decreases |ws|
  {
    if |ws| > 1 {
      JoinNonEmpty(ws[1..]);
    }
  }

  /**
   * A last line without a trailing newline still loses its last
   * character: its final value is read one character short.
   */
  lemma LastLineWithoutNewline<V>(w: string, values: seq<string>, convert: seq<string> -> Option<V>)
    requires w != [] && NoSpace(w)
    requires values != [] && forall k :: 0 <= k < |values| ==> values[k] != [] && NoSpace(values[k])
    requires |values[|values| - 1]| >= 2
    ensures var shortened := values[..|values| - 1] + [DropLast(values[|values| - 1])];
      Words(DropLast(Join([w] + values, ' '))) == [w] + shortened
  {
    var ws := [w] + values;
    var shortened := values[..|values| - 1] + [DropLast(values[|values| - 1])];
    DropLastOfJoin(ws);
    assert ws[..|ws| - 1] + [DropLast(ws[|ws| - 1])] == [w] + shortened;
    var last := values[|values| - 1];
    assert DropLast(last) == last[..|last| - 1];
    forall k | 0 <= k < |[w] + shortened| ensures ([w] + shortened)[k] != [] && NoSpace(([w] + shortened)[k]) {
      if k == |values| {
        assert ([w] + shortened)[k] == last[..|last| - 1];
        assert forall c :: 0 <= c < |last| - 1 ==> last[..|last| - 1][c] == last[c];
      }
    }
    WordsOfJoin([w] + shortened);
  }
}
