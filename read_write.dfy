/**
 * The reading and writing helpers of the harness, on the values they
 * compute. Opening files and writing bytes is not modelled: a write is
 * described by a `FileWrite` record (path, mode, what is written).
 */
module ReadWrite {
  import opened Wrappers
  import opened Text

  /** The `permission` argument: 'w' overwrites, 'a' appends. */
  datatype Mode = Overwrite | Append

  /** How a callback stores the predictions of one split. */
  datatype StoreFormat = ListFormat | VqaFormat | ListOfListsFormat | NumpyFormat

  /**
   * What is written: text, or the (opaque) predictions of a split in one of
   * the store formats.
   */
  datatype Payload = Text(text: string) | Predictions(split: string, format: StoreFormat)

  datatype FileWrite = FileWrite(path: string, mode: Mode, payload: Payload)

  /** `_dirac(pred, gt)`: the indicator of equality, as an int. */
  function Dirac<T(==)>(pred: T, gt: T): (r: int)
    ensures r == 0 || r == 1
    ensures r == 1 <==> pred == gt
  {
    if pred == gt then 1 else 0
  }

  /** The strings of `xs` that are not empty, in order. */
  function NonEmpty(xs: seq<string>): (r: seq<string>)
    ensures |r| <= |xs|
    ensures forall k :: 0 <= k < |r| ==> r[k] != [] && r[k] in xs
  {
    if xs == [] then []
    else (if xs[0] == [] then [] else [xs[0]]) + NonEmpty(xs[1..])
  }

  /** `[k.strip() for k in lines]`. */
  function StripEach(lines: seq<string>): (r: seq<string>)
    ensures |r| == |lines|
    ensures forall i :: 0 <= i < |r| ==> r[i] == Strip(lines[i])
  {
    seq(|lines|, i requires 0 <= i < |lines| => Strip(lines[i]))
  }

  /**
   * `file2list` on the lines `readlines()` returned: every line stripped,
   * the ones left empty dropped, the others kept in order.
   */
  function File2List(lines: seq<string>): (r: seq<string>)
    ensures |r| <= |lines|
    ensures forall k :: 0 <= k < |r| ==> r[k] != [] && Stripped(r[k])
  {
    var stripped := StripEach(lines);
    assert forall x :: x in stripped ==> Stripped(x) by {
      forall i | 0 <= i < |lines| ensures Stripped(stripped[i]) {
        StripStripped(lines[i]);
      }
    }
    NonEmpty(stripped)
  }

  /** Filtering works one string at a time: the result for a concatenation is the concatenation. */
  lemma {:induction false} NonEmptyAppend(a: seq<string>, b: seq<string>)
    ensures NonEmpty(a + b) == NonEmpty(a) + NonEmpty(b)
  {
    if a != [] {
      assert (a + b)[1..] == a[1..] + b;
      NonEmptyAppend(a[1..], b);
    } else {
      assert a + b == b;
    }
  }

  /** Lines are read one by one: the result for a concatenation is the concatenation. */
  lemma File2ListAppend(a: seq<string>, b: seq<string>)
    ensures File2List(a + b) == File2List(a) + File2List(b)
  {
    StripEachAppend(a, b);
    NonEmptyAppend(StripEach(a), StripEach(b));
  }

  lemma StripEachAppend(a: seq<string>, b: seq<string>)
    ensures StripEach(a + b) == StripEach(a) + StripEach(b)
  {
    var l, r := StripEach(a + b), StripEach(a) + StripEach(b);
    assert |l| == |r|;
    forall i | 0 <= i < |l| ensures l[i] == r[i] {
      if i < |a| {
        assert (a + b)[i] == a[i];
      } else {
        assert (a + b)[i] == b[i - |a|];
      }
    }
  }

  /** One line gives its stripped text, or nothing when that is empty. */
  lemma File2ListSingle(line: string)
    ensures File2List([line]) == if Strip(line) == [] then [] else [Strip(line)]
  {
    assert StripEach([line]) == [Strip(line)];
    assert [Strip(line)][1..] == [];
  }

  /** A string is kept by the filter exactly when it is in the input and not empty. */
  lemma {:induction false} NonEmptyMembers(xs: seq<string>, x: string)
    ensures x in NonEmpty(xs) <==> x != [] && x in xs
  {
    if xs != [] {
      NonEmptyMembers(xs[1..], x);
      assert xs == [xs[0]] + xs[1..];
    }
  }

  /** A line of the result is exactly a stripped line of the input that is not empty. */
  lemma File2ListMembers(lines: seq<string>, x: string)
    ensures x in File2List(lines) <==> x != [] && exists i :: 0 <= i < |lines| && Strip(lines[i]) == x
  {
    var stripped := StripEach(lines);
    NonEmptyMembers(stripped, x);
    if x in stripped {
      var i :| 0 <= i < |stripped| && stripped[i] == x;
      assert Strip(lines[i]) == x;
    }
  }

  /** The filter keeps everything when nothing is empty. */
  lemma {:induction false} NonEmptyKeeps(xs: seq<string>)
    requires forall k :: 0 <= k < |xs| ==> xs[k] != []
    ensures NonEmpty(xs) == xs
  {
    if xs != [] {
      NonEmptyKeeps(xs[1..]);
      assert xs == [xs[0]] + xs[1..];
    }
  }

  /** Reading back a list that was already filtered changes nothing. */
  lemma File2ListIdempotent(lines: seq<string>)
    ensures File2List(File2List(lines)) == File2List(lines)
  {
    var r := File2List(lines);
    var again := StripEach(r);
    forall i | 0 <= i < |r| ensures again[i] == r[i] {
      StrippedFixed(r[i]);
    }
    assert again == r;
    NonEmptyKeeps(r);
  }

  /** One record of the VQA answer file. */
  datatype VqaRecord<A> = VqaRecord(answer: A, questionId: int)

  /**
   * `list2vqa`: pairs each answer with `int(qid)` of the question id at the
   * same position, as far as both lists go. `toInt` stands for Python's
   * `int()`, which fails with a ValueError on some inputs.
   */
  method List2Vqa<A, Q>(answers: seq<A>, qids: seq<Q>, toInt: Q -> Option<int>)
    returns (r: Result<seq<VqaRecord<A>>, PyError>)
    ensures r.Ok? <==> forall i :: 0 <= i < Min(|answers|, |qids|) ==> toInt(qids[i]).Some?
    ensures r.Ok? ==> |r.value| == Min(|answers|, |qids|)
    ensures r.Ok? ==> forall i :: 0 <= i < |r.value| ==>
      r.value[i] == VqaRecord(answers[i], toInt(qids[i]).value)
  {
    var res: seq<VqaRecord<A>> := [];
    var n := Min(|answers|, |qids|);
    var i := 0;
    while i < n
      invariant 0 <= i <= n && |res| == i
      invariant forall k :: 0 <= k < i ==> toInt(qids[k]).Some?
      invariant forall k :: 0 <= k < i ==> res[k] == VqaRecord(answers[k], toInt(qids[k]).value)
    {
      var id := toInt(qids[i]);
      if id.None? {
        return Err(ValueError("invalid literal for int()"));
      }
      res := res + [VqaRecord(answers[i], id.value)];
      i := i + 1;
    }
    r := Ok(res);
  }

  /** One `key:value` line of `dict2file`, from the `str()` of key and value. */
  function Entry(key: string, value: string): string {
    key + ":" + value
  }

  /**
   * The key of an entry is what comes before its first colon, and the value
   * is the rest, when the key holds no colon.
   */
  lemma EntryRoundTrip(key: string, value: string)
    requires ':' !in key
    ensures var parts := Split(Entry(key, value), ':');
      parts[0] == key && |parts| >= 2 && Join(parts[1..], ':') == value
  {
    var after := ":" + value;
    assert Entry(key, value) == key + after;
    SplitFree(key, after, ':');
    assert after[1..] == value;
    var ps := Split(after, ':');
    assert ps == [""] + Split(value, ':');
    assert key + "" == key;
    var parts := Split(Entry(key, value), ':');
    assert parts[1..] == Split(value, ':');
    JoinOfSplit(value, ':');
  }

  /**
   * The list `dict2file` hands to `list2file`: the title first when there is
   * one, then one entry per item of the dictionary, in the order of `items()`.
   */
  method Dict2Lines(items: seq<(string, string)>, title: Option<string>) returns (lines: seq<string>)
    ensures |lines| == |items| + (if title.Some? then 1 else 0)
    ensures title.Some? ==> lines[0] == title.value
    ensures var offset := if title.Some? then 1 else 0;
      forall k :: 0 <= k < |items| ==> lines[k + offset] == Entry(items[k].0, items[k].1)
    ensures lines == Dict2LinesOf(items, title)
  {
    var entries := EntryLines(items);
    if title.Some? {
      lines := [title.value];
      lines := lines + entries;
    } else {
      lines := entries;
    }
  }

  /** `'\n'.join(s)` for a string `s`: a newline between each two characters. */
  function NewlineJoin(s: string): (r: string)
    ensures |s| >= 1 ==> |r| == 2 * |s| - 1
    ensures |s| == 0 ==> r == []
  {
    if |s| <= 1 then s else [s[0], '\n'] + NewlineJoin(s[1..])
  }

  /** Even positions of the joined string hold the characters, odd ones newlines. */
  lemma {:induction false} NewlineJoinAt(s: string, i: nat)
    requires i < 2 * |s| - 1
    ensures NewlineJoin(s)[i] == if i % 2 == 0 then s[i / 2] else '\n'
  {
    if i >= 2 {
      NewlineJoinAt(s[1..], i - 2);
    }
  }

  /** The characters at the even positions of a string. */
  function EvenPositions(r: string): string {
    if |r| <= 1 then r else [r[0]] + EvenPositions(r[2..])
  }

  /** The newline-join loses nothing: its even positions give the string back. */
  lemma {:induction false} NewlineJoinInverse(s: string)
    ensures EvenPositions(NewlineJoin(s)) == s
  {
    if |s| > 1 {
      var r := NewlineJoin(s);
      assert r[2..] == NewlineJoin(s[1..]);
      NewlineJoinInverse(s[1..]);
      assert s == [s[0]] + s[1..];
    }
  }

  /**
   * `list2file` and `listoflists2file`, given the `str()` rendering of the
   * list they were passed (listoflists2file first renders each sublist):
   * both write the newline-join of that rendering. Reading `mylist[0]` of
   * an empty join fails.
   */
  function List2File(path: string, rendered: string, mode: Mode): (r: Result<FileWrite, PyError>)
    ensures r.Ok? <==> rendered != []
    ensures r.Ok? ==> (r.value.path == path && r.value.mode == mode
      && r.value.payload == Text(NewlineJoin(rendered)) && EvenPositions(r.value.payload.text) == rendered)
  {
    NewlineJoinInverse(rendered);
    if rendered == [] then Err(IndexError("string index out of range"))
    else Ok(FileWrite(path, mode, Text(NewlineJoin(rendered))))
  }

  /**
   * `dict2file`: the lines of the dictionary appended to `path` through
   * `list2file`; `render` stands for `str()` of a list.
   */
  method Dict2File(items: seq<(string, string)>, path: string, title: Option<string>, render: seq<string> -> string)
    returns (r: Result<FileWrite, PyError>)
    ensures r.Ok? <==> render(Dict2LinesOf(items, title)) != []
    ensures r.Ok? ==> (r.value.mode == Append && r.value.path == path
      && r.value.payload == Text(NewlineJoin(render(Dict2LinesOf(items, title)))))
  {
    var lines := Dict2Lines(items, title);
    r := List2File(path, render(lines), Append);
  }

  /** The comprehension `[str(x[0]) + ':' + str(x[1]) for x in mydict.items()]`. */
  function EntryLines(items: seq<(string, string)>): seq<string> {
    seq(|items|, k requires 0 <= k < |items| => Entry(items[k].0, items[k].1))
  }

  /** The list `Dict2Lines` builds, for use in specifications. */
  function Dict2LinesOf(items: seq<(string, string)>, title: Option<string>): seq<string> {
    if title.Some? then [title.value] + EntryLines(items) else EntryLines(items)
  }
}
