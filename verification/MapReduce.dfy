/** Word counting by map and multi-level reduce (chapter 6), against the one-pass count. */
module MapReduce {
  import opened Options

  /** A Python call: its value, or an exception. */
  datatype Result<T> = Ok(value: T) | Raise

  type Counter = map<string, int>
  type Entry = (string, int)

  function Get(m: Counter, w: string): int {
    if w in m then m[w] else 0
  }

  function Add(m: Counter, e: Entry): Counter {
    m[e.0 := Get(m, e.0) + e.1]
  }

  /** `line.split('\t')` */
  function Split(line: string): (fields: seq<string>)
    ensures fields != []
  {
    if line == "" then [""]
    else
      var rest := Split(line[1..]);
      if line[0] == '\t' then [""] + rest else [[line[0]] + rest[0]] + rest[1..]
  }

  /** Fields with tabs between them. */
  function Tabbed(fields: seq<string>): string
    requires fields != []
  {
    if |fields| == 1 then fields[0] else fields[0] + ['\t'] + Tabbed(fields[1..])
  }

  ghost predicate WithoutTabs(fields: seq<string>) {
    forall i :: 0 <= i < |fields| ==> '\t' !in fields[i]
  }

  /** Splitting takes a line apart at all its tabs, and nowhere else. */
  lemma {:induction false} SplitIsTabbed(line: string)
    ensures WithoutTabs(Split(line)) && Tabbed(Split(line)) == line
  {
    if line != "" {
      var rest := Split(line[1..]);
      SplitIsTabbed(line[1..]);
      if line[0] == '\t' {
        assert ([""] + rest)[1..] == rest;
      } else {
        var fields := [[line[0]] + rest[0]] + rest[1..];
        assert fields[1..] == rest[1..];
        assert WithoutTabs(fields) by {
          forall i | 0 <= i < |fields| ensures '\t' !in fields[i] { assert '\t' !in rest[i]; }
        }
      }
    }
  }

  lemma {:induction false} TabbedIsSplit(fields: seq<string>)
    requires fields != [] && WithoutTabs(fields)
    ensures Split(Tabbed(fields)) == fields
    decreases |fields|, |fields[0]|
  {
    var line := Tabbed(fields);
    if fields[0] == "" {
      if 1 < |fields| {
        assert line[1..] == Tabbed(fields[1..]);
        TabbedIsSplit(fields[1..]);
      }
    } else {
      var less := [fields[0][1..]] + fields[1..];
      assert line[0] == fields[0][0] && line[0] in fields[0];
      assert less[1..] == fields[1..];
      assert line[1..] == Tabbed(less);
      assert WithoutTabs(less) by {
        forall i | 0 <= i < |less| ensures '\t' !in less[i] { assert '\t' !in fields[i]; }
      }
      TabbedIsSplit(less);
      assert [line[0]] + less[0] == fields[0];
    }
  }

  /** What is read of a line: its first field and its third, a number as `int` reads it. The
      one-pass program asks for at least three fields, `map_frequencies` for exactly four. */
  function ReadEntry(line: string, strict: bool, toInt: string -> Option<int>): Option<Entry> {
    var data := Split(line);
    if (if strict then |data| == 4 else 3 <= |data|) && toInt(data[2]).Some?
    then Some((data[0], toInt(data[2]).value)) else None
  }

  lemma FourTabbed(a: string, b: string, c: string, d: string, t: string)
    ensures a + t + (b + t + (c + t + d)) == a + t + b + t + c + t + d
  {
  }

  /** A line of the data set: word, year, count and number of volumes. Both programs read the
      word and the count, if that is a number. */
  lemma LineIsEntry(word: string, year: string, count: string, volumes: string, strict: bool, toInt: string -> Option<int>)
    requires WithoutTabs([word, year, count, volumes])
    ensures ReadEntry(word + "\t" + year + "\t" + count + "\t" + volumes, strict, toInt) ==
            match toInt(count)
            case Some(n) => Some((word, n))
            case None => None
  {
    var fields := [word, year, count, volumes];
    assert fields[1..] == [year, count, volumes] && fields[1..][1..] == [count, volumes] && fields[1..][1..][1..] == [volumes];
    assert Tabbed([count, volumes]) == count + "\t" + volumes;
    assert Tabbed([year, count, volumes]) == year + "\t" + Tabbed([count, volumes]);
    assert Tabbed(fields) == word + "\t" + Tabbed([year, count, volumes]);
    FourTabbed(word, year, count, volumes, "\t");
    TabbedIsSplit(fields);
  }

  /** Every line is so many fields with tabs between them. With fewer than three neither
      program can read it; with three, or more than four, only the one-pass program can. */
  lemma FieldsAreEntry(fields: seq<string>, toInt: string -> Option<int>)
    requires fields != [] && WithoutTabs(fields)
    ensures ReadEntry(Tabbed(fields), false, toInt) ==
            if 3 <= |fields| && toInt(fields[2]).Some? then Some((fields[0], toInt(fields[2]).value)) else None
    ensures ReadEntry(Tabbed(fields), true, toInt) ==
            if |fields| == 4 then ReadEntry(Tabbed(fields), false, toInt) else None
  {
    TabbedIsSplit(fields);
  }

  /** Reading every line, unless one cannot be read. */
  function Entries(lines: seq<string>, strict: bool, toInt: string -> Option<int>): Option<seq<Entry>> {
    if lines == [] then Some([])
    else
      match (ReadEntry(lines[0], strict, toInt), Entries(lines[1..], strict, toInt))
      case (Some(e), Some(more)) => Some([e] + more)
      case _ => None
  }

  lemma {:induction false} EntriesAreLines(lines: seq<string>, strict: bool, toInt: string -> Option<int>)
    ensures Entries(lines, strict, toInt).Some? <==> forall i :: 0 <= i < |lines| ==> ReadEntry(lines[i], strict, toInt).Some?
    ensures match Entries(lines, strict, toInt)
            case None => true
            case Some(entries) =>
              |entries| == |lines| && forall i :: 0 <= i < |lines| ==> Some(entries[i]) == ReadEntry(lines[i], strict, toInt)
  {
    if lines != [] {
      EntriesAreLines(lines[1..], strict, toInt);
      assert forall i :: 1 <= i < |lines| ==> lines[i] == lines[1..][i - 1];
    }
  }

  /** The count of these entries. */
  function Total(entries: seq<Entry>): Counter {
    if entries == [] then map[] else Add(Total(entries[..|entries| - 1]), entries[|entries| - 1])
  }

  /** All that these entries say of a word. */
  function Sum(entries: seq<Entry>, word: string): int {
    if entries == [] then 0 else (if entries[0].0 == word then entries[0].1 else 0) + Sum(entries[1..], word)
  }

  lemma {:induction false} SumSnoc(entries: seq<Entry>, e: Entry, word: string)
    ensures Sum(entries + [e], word) == Sum(entries, word) + if e.0 == word then e.1 else 0
  {
    if entries == [] {
      assert entries + [e] == [e];
    } else {
      assert (entries + [e])[1..] == entries[1..] + [e];
      SumSnoc(entries[1..], e, word);
    }
  }

  /** The count of a word is the sum of its entries, and only words with entries are counted. */
  lemma {:induction false} TotalIsSum(entries: seq<Entry>, word: string)
    ensures Get(Total(entries), word) == Sum(entries, word)
    ensures word in Total(entries) <==> exists i :: 0 <= i < |entries| && entries[i].0 == word
    decreases |entries|
  {
    if entries != [] {
      var n := |entries| - 1;
      TotalIsSum(entries[..n], word);
      SumSnoc(entries[..n], entries[n], word);
      assert entries[..n] + [entries[n]] == entries;
      assert forall i :: 0 <= i < n ==> entries[..n][i] == entries[i];
    }
  }

  /** Adding two counters word by word. */
  function Merge(a: Counter, b: Counter): Counter {
    map w | w in a.Keys + b.Keys :: Get(a, w) + Get(b, w)
  }

  function MergeAll(counters: seq<Counter>): Counter {
    if counters == [] then map[] else Merge(MergeAll(counters[..|counters| - 1]), counters[|counters| - 1])
  }

  function Prefixed(done: seq<Entry>, rest: Option<seq<Entry>>): Option<seq<Entry>> {
    match rest
    case None => None
    case Some(more) => Some(done + more)
  }

  /** Having read the entries `done`, the next line is read. */
  lemma NextLine(done: seq<Entry>, lines: seq<string>, i: nat, strict: bool, toInt: string -> Option<int>)
    requires i < |lines|
    ensures var rest := Entries(lines[i + 1..], strict, toInt);
            Prefixed(done, Entries(lines[i..], strict, toInt)) ==
            match ReadEntry(lines[i], strict, toInt)
            case None => None
            case Some(e) => Prefixed(done + [e], rest)
  {
    assert lines[i..][1..] == lines[i + 1..];
    match (ReadEntry(lines[i], strict, toInt), Entries(lines[i + 1..], strict, toInt))
    case (Some(e), Some(more)) => assert done + ([e] + more) == (done + [e]) + more;
    case _ =>
  }

  lemma TotalSnoc(done: seq<Entry>, e: Entry)
    ensures Total(done + [e]) == Add(Total(done), e)
  {
    assert (done + [e])[..|done|] == done;
  }

  lemma FirstLine(lines: seq<string>, strict: bool, toInt: string -> Option<int>)
    ensures Prefixed([], Entries(lines[0..], strict, toInt)) == Entries(lines, strict, toInt)
  {
    assert lines[0..] == lines;
    match Entries(lines, strict, toInt)
    case Some(all) => assert [] + all == all;
    case None =>
  }

  /** The first `i` lines are the entries `done`. */
  ghost predicate SoFar(lines: seq<string>, i: nat, done: seq<Entry>, strict: bool, toInt: string -> Option<int>) {
    i <= |lines| && Entries(lines, strict, toInt) == Prefixed(done, Entries(lines[i..], strict, toInt))
  }

  lemma SoFarNext(lines: seq<string>, i: nat, done: seq<Entry>, strict: bool, toInt: string -> Option<int>)
    requires i < |lines| && SoFar(lines, i, done, strict, toInt)
    ensures match ReadEntry(lines[i], strict, toInt)
            case None => Entries(lines, strict, toInt) == None
            case Some(e) => SoFar(lines, i + 1, done + [e], strict, toInt) && Total(done + [e]) == Add(Total(done), e)
  {
    NextLine(done, lines, i, strict, toInt);
    match ReadEntry(lines[i], strict, toInt)
    case Some(e) => TotalSnoc(done, e);
    case None =>
  }

  lemma AllRead(lines: seq<string>, done: seq<Entry>, strict: bool, toInt: string -> Option<int>)
    requires SoFar(lines, |lines|, done, strict, toInt)
    ensures Entries(lines, strict, toInt) == Some(done)
  {
    assert done + [] == done;
  }

  /** The one-pass program. */
  method OnePass(lines: seq<string>, toInt: string -> Option<int>) returns (r: Result<Counter>)
    ensures match Entries(lines, false, toInt)
            case Some(entries) => r == Ok(Total(entries))
            case None => r == Raise
  {
    var freqs: Counter := map[];
    ghost var done: seq<Entry> := [];
    FirstLine(lines, false, toInt);
    for i := 0 to |lines|
      invariant freqs == Total(done)
      invariant SoFar(lines, i, done, false, toInt)
    {
      SoFarNext(lines, i, done, false, toInt);
      var data := Split(lines[i]);
      if |data| < 3 || toInt(data[2]).None? {
        return Raise;
      }
      var word, count := data[0], toInt(data[2]).value;
      if word in freqs {
        freqs := freqs[word := freqs[word] + count];
      } else {
        freqs := freqs[word := count];
      }
      done := done + [(word, count)];
    }
    AllRead(lines, done, false, toInt);
    r := Ok(freqs);
  }

  /** `map_frequencies`; a count of zero takes the other branch and comes to the same. */
  method MapFrequencies(chunk: seq<string>, toInt: string -> Option<int>) returns (r: Result<Counter>)
    ensures match Entries(chunk, true, toInt)
            case Some(entries) => r == Ok(Total(entries))
            case None => r == Raise
  {
    var counter: Counter := map[];
    ghost var done: seq<Entry> := [];
    FirstLine(chunk, true, toInt);
    for i := 0 to |chunk|
      invariant counter == Total(done)
      invariant SoFar(chunk, i, done, true, toInt)
    {
      SoFarNext(chunk, i, done, true, toInt);
      var fields := Split(chunk[i]);
      if |fields| != 4 || toInt(fields[2]).None? {
        return Raise;
      }
      var word, count := fields[0], toInt(fields[2]).value;
      if word in counter && counter[word] != 0 {
        counter := counter[word := counter[word] + count];
      } else {
        counter := counter[word := count];
      }
      done := done + [(word, count)];
    }
    AllRead(chunk, done, true, toInt);
    r := Ok(counter);
  }

  /** A dictionary object. */
  class Dict {
    var m: Counter

    constructor (m: Counter)
      ensures this.m == m
    {
      this.m := m;
    }
  }

  /** `merge_dictionaries`: the first dictionary is updated and returned, even if the second is
      the same object. */
  method MergeDictionaries(first: Dict, second: Dict) returns (merged: Dict)
    modifies first
    ensures merged == first
    ensures first.m == Merge(old(first.m), old(second.m))
  {
    merged := first;
    var keys := second.m.Keys;
    while keys != {}
      invariant keys <= old(second.m).Keys && (second != first ==> second.m == old(second.m))
      invariant merged.m.Keys == old(first.m).Keys + (old(second.m).Keys - keys)
      invariant forall w :: w in merged.m ==>
          merged.m[w] == Get(old(first.m), w) + (if w in keys then 0 else Get(old(second.m), w))
      decreases keys
    {
      var key :| key in keys;
      if key in merged.m {
        merged.m := merged.m[key := merged.m[key] + second.m[key]];
      } else {
        merged.m := merged.m[key := second.m[key]];
      }
      keys := keys - {key};
    }
  }

  /** `partition`: consecutive slices of this size, the last perhaps shorter. */
  function Chunks<T>(data: seq<T>, size: nat): (chunks: seq<seq<T>>)
    requires 0 < size
    ensures data == [] <==> chunks == []
    ensures forall i :: 0 <= i < |chunks| ==> chunks[i] != [] && |chunks[i]| <= size
    ensures chunks != [] ==> |chunks[0]| == if size < |data| then size else |data|
    ensures |chunks| <= |data| && (1 < size && 1 < |data| ==> |chunks| < |data|)
  {
    if data == [] then []
    else if |data| <= size then [data]
    else [data[..size]] + Chunks(data[size..], size)
  }

  lemma NextChunk<T>(data: seq<T>, i: nat, size: nat)
    requires 0 < size && i < |data|
    ensures var end := if i + size < |data| then i + size else |data|;
            Chunks(data[i..], size) == [data[i..end]] + Chunks(data[end..], size)
  {
    var end := if i + size < |data| then i + size else |data|;
    assert data[i..][..end - i] == data[i..end];
    if i + size < |data| {
      assert data[i..][size..] == data[end..];
    } else {
      assert data[i..end] == data[i..] && Chunks(data[end..], size) == [];
      assert [data[i..end]] + [] == [data[i..end]];
    }
  }

  method Partition<T>(data: seq<T>, size: nat) returns (chunks: seq<seq<T>>)
    requires 0 < size
    ensures chunks == Chunks(data, size)
  {
    chunks := [];
    var i := 0;
    ghost var at := 0;
    assert data[0..] == data;
    while i < |data|
      invariant 0 <= i && at == if i < |data| then i else |data|
      invariant chunks + Chunks(data[at..], size) == Chunks(data, size)
      decreases |data| - i
    {
      var end := if i + size < |data| then i + size else |data|;
      NextChunk(data, i, size);
      assert (chunks + [data[i..end]]) + Chunks(data[end..], size) == chunks + ([data[i..end]] + Chunks(data[end..], size));
      chunks := chunks + [data[i..end]];
      i := i + size;
      at := end;
    }
  }

  // ---- laws ----

  lemma MergeAssociative(a: Counter, b: Counter, c: Counter)
    ensures Merge(Merge(a, b), c) == Merge(a, Merge(b, c))
  {
  }

  lemma MergeEmpty(a: Counter)
    ensures Merge(a, map[]) == a == Merge(map[], a)
  {
  }

  lemma {:induction false} MergeAllAppend(a: seq<Counter>, b: seq<Counter>)
    ensures MergeAll(a + b) == Merge(MergeAll(a), MergeAll(b))
    decreases |b|
  {
    if b == [] {
      assert a + b == a;
      MergeEmpty(MergeAll(a));
    } else {
      var init, last := b[..|b| - 1], b[|b| - 1];
      assert (a + b)[..|a + b| - 1] == a + init;
      MergeAllAppend(a, init);
      MergeAssociative(MergeAll(a), MergeAll(init), last);
    }
  }

  function Flatten<T>(chunks: seq<seq<T>>): seq<T> {
    if chunks == [] then [] else chunks[0] + Flatten(chunks[1..])
  }

  /** The slices are the whole list, in order. */
  lemma {:induction false} ChunksFlatten<T>(data: seq<T>, size: nat)
    requires 0 < size
    ensures Flatten(Chunks(data, size)) == data
    decreases |data|
  {
    if data == [] {
    } else if |data| <= size {
      assert Flatten([data]) == data + Flatten<T>([]);
    } else {
      ChunksFlatten(data[size..], size);
      assert data == data[..size] + data[size..];
    }
  }

  function Merged(chunks: seq<seq<Counter>>): (r: seq<Counter>)
    ensures |r| == |chunks|
  {
    if chunks == [] then [] else [MergeAll(chunks[0])] + Merged(chunks[1..])
  }

  /** One level of reduction loses nothing. */
  lemma {:induction false} LevelKeepsTotal(chunks: seq<seq<Counter>>)
    ensures MergeAll(Merged(chunks)) == MergeAll(Flatten(chunks))
  {
    if chunks != [] {
      LevelKeepsTotal(chunks[1..]);
      MergeAllAppend([MergeAll(chunks[0])], Merged(chunks[1..]));
      MergeAllAppend(chunks[0], Flatten(chunks[1..]));
      MergeOne(MergeAll(chunks[0]));
    }
  }

  lemma MergeOne(a: Counter)
    ensures MergeAll([a]) == a
  {
    assert [a][..0] == [];
    MergeEmpty(a);
  }

  /** `functools.reduce( merge_dictionaries, chunk )` on a non-empty chunk, in a process of the
      pool: what is merged there are copies of the counters. */
  method ReduceChunk(chunk: seq<Counter>) returns (r: Counter)
    requires chunk != []
    ensures r == MergeAll(chunk)
  {
    var acc := new Dict(chunk[0]);
    MergeOne(acc.m);
    assert chunk[..1] == [chunk[0]];
    for i := 1 to |chunk|
      invariant fresh(acc) && acc.m == MergeAll(chunk[..i])
    {
      assert chunk[..i + 1][..i] == chunk[..i];
      var next := new Dict(chunk[i]);
      acc := MergeDictionaries(acc, next);
    }
    assert chunk[..|chunk|] == chunk;
    r := acc.m;
  }

  /** One level: every chunk reduced, the results gathered in order. */
  method ReduceLevel(chunks: seq<seq<Counter>>) returns (reducers: seq<Counter>)
    requires forall i :: 0 <= i < |chunks| ==> chunks[i] != []
    ensures reducers == Merged(chunks)
  {
    reducers := [];
    for i := 0 to |chunks|
      invariant reducers + Merged(chunks[i..]) == Merged(chunks)
    {
      var reducer := ReduceChunk(chunks[i]);
      assert chunks[i..][0] == chunks[i] && chunks[i..][1..] == chunks[i + 1..];
      assert (reducers + [reducer]) + Merged(chunks[i + 1..]) == reducers + ([reducer] + Merged(chunks[i + 1..]));
      reducers := reducers + [reducer];
    }
  }

  /** `reduce`. For chunk sizes from 2 on it merges all counters; with size 1 it returns the
      first counter alone; without counters or without a size there is nothing to index. */
  method Reduce(counters: seq<Counter>, chunkSize: int) returns (r: Result<Counter>)
    ensures counters == [] || chunkSize <= 0 ==> r == Raise
    ensures counters != [] && chunkSize == 1 ==> r == Ok(counters[0])
    ensures counters != [] && 2 <= chunkSize ==> r == Ok(MergeAll(counters))
  {
    if chunkSize <= 0 {
      return Raise;
    }
    var chunks := Partition(counters, chunkSize);
    if chunks == [] {
      return Raise;
    }
    ghost var level := counters;
    while 1 < |chunks[0]|
      invariant chunks == Chunks(level, chunkSize) && level != []
      invariant chunkSize == 1 ==> level == counters
      invariant MergeAll(level) == MergeAll(counters)
      decreases |level|
    {
      var reducers := ReduceLevel(chunks);
      LevelKeepsTotal(chunks);
      ChunksFlatten(level, chunkSize);
      level := reducers;
      chunks := Partition(reducers, chunkSize);
    }
    if 2 <= chunkSize {
      assert level == [chunks[0][0]];
      MergeOne(level[0]);
    }
    r := Ok(chunks[0][0]);
  }

  // ---- the two programs agree ----

  function Joined<T>(a: Option<seq<T>>, b: Option<seq<T>>): Option<seq<T>> {
    if a.Some? && b.Some? then Some(a.value + b.value) else None
  }

  lemma JoinedOnce(e: Option<Entry>, a: Option<seq<Entry>>, b: Option<seq<Entry>>)
    requires e.Some? && a.Some? && b.Some?
    ensures [e.value] + (a.value + b.value) == ([e.value] + a.value) + b.value
  {
  }

  lemma {:induction false} EntriesAppend(a: seq<string>, b: seq<string>, strict: bool, toInt: string -> Option<int>)
    ensures Entries(a + b, strict, toInt) == Joined(Entries(a, strict, toInt), Entries(b, strict, toInt))
  {
    var y := Entries(b, strict, toInt);
    if a == [] {
      assert a + b == b;
      assert y.Some? ==> [] + y.value == y.value;
    } else {
      assert (a + b)[1..] == a[1..] + b && (a + b)[0] == a[0];
      EntriesAppend(a[1..], b, strict, toInt);
      var e, x := ReadEntry(a[0], strict, toInt), Entries(a[1..], strict, toInt);
      if e.Some? && x.Some? && y.Some? { JoinedOnce(e, x, y); }
    }
  }

  lemma {:induction false} TotalAppend(a: seq<Entry>, b: seq<Entry>)
    ensures Total(a + b) == Merge(Total(a), Total(b))
    decreases |b|
  {
    if b == [] {
      assert a + b == a;
      MergeEmpty(Total(a));
    } else {
      var init, last := b[..|b| - 1], b[|b| - 1];
      assert (a + b)[..|a + b| - 1] == a + init;
      TotalAppend(a, init);
      AddMerge(Total(a), Total(init), last);
    }
  }

  lemma AddMerge(a: Counter, b: Counter, e: Entry)
    ensures Add(Merge(a, b), e) == Merge(a, Add(b, e))
  {
  }

  /** What mapping every slice gives, when every line can be read. */
  function Mapped(chunks: seq<seq<string>>, toInt: string -> Option<int>): Option<seq<Counter>> {
    if chunks == [] then Some([])
    else
      match (Entries(chunks[0], true, toInt), Mapped(chunks[1..], toInt))
      case (Some(entries), Some(more)) => Some([Total(entries)] + more)
      case _ => None
  }

  /** Slicing and counting lose nothing. */
  lemma {:induction false} MappedTotal(chunks: seq<seq<string>>, toInt: string -> Option<int>)
    ensures match (Mapped(chunks, toInt), Entries(Flatten(chunks), true, toInt))
            case (Some(counters), Some(entries)) => |counters| == |chunks| && MergeAll(counters) == Total(entries)
            case (None, None) => true
            case _ => false
  {
    if chunks != [] {
      var rest := chunks[1..];
      MappedTotal(rest, toInt);
      EntriesAppend(chunks[0], Flatten(rest), true, toInt);
      match (Entries(chunks[0], true, toInt), Mapped(rest, toInt), Entries(Flatten(rest), true, toInt))
      case (Some(first), Some(more), Some(others)) =>
        TotalAppend(first, others);
        MergeAllAppend([Total(first)], more);
        MergeOne(Total(first));
      case _ =>
    }
  }

  /** Four fields are at least three: what the strict reading reads, the loose one reads too. */
  lemma {:induction false} StrictIsLoose(lines: seq<string>, toInt: string -> Option<int>)
    ensures Entries(lines, true, toInt).Some? ==> Entries(lines, false, toInt) == Entries(lines, true, toInt)
  {
    if lines != [] {
      StrictIsLoose(lines[1..], toInt);
    }
  }

  lemma NextSlice(counters: seq<Counter>, chunks: seq<seq<string>>, i: nat, toInt: string -> Option<int>)
    requires i < |chunks|
    ensures var entries := Entries(chunks[i], true, toInt);
            Joined(Some(counters), Mapped(chunks[i..], toInt)) ==
            if entries.None? then None else Joined(Some(counters + [Total(entries.value)]), Mapped(chunks[i + 1..], toInt))
  {
    assert chunks[i..][1..] == chunks[i + 1..] && chunks[i..][0] == chunks[i];
    match (Entries(chunks[i], true, toInt), Mapped(chunks[i + 1..], toInt))
    case (Some(entries), Some(more)) =>
      assert counters + ([Total(entries)] + more) == (counters + [Total(entries)]) + more;
    case _ =>
  }

  /** The map phase: every slice counted, unless one raises. */
  method MapAll(chunks: seq<seq<string>>, toInt: string -> Option<int>) returns (r: Result<seq<Counter>>)
    ensures r == if Mapped(chunks, toInt).Some? then Ok(Mapped(chunks, toInt).value) else Raise
  {
    var counters := [];
    assert chunks[0..] == chunks;
    assert Mapped(chunks, toInt).Some? ==> [] + Mapped(chunks, toInt).value == Mapped(chunks, toInt).value;
    for i := 0 to |chunks|
      invariant Mapped(chunks, toInt) == Joined(Some(counters), Mapped(chunks[i..], toInt))
    {
      NextSlice(counters, chunks, i, toInt);
      var counter := MapFrequencies(chunks[i], toInt);
      if counter.Raise? {
        return Raise;
      }
      counters := counters + [counter.value];
    }
    assert counters + [] == counters;
    r := Ok(counters);
  }

  /** The whole program: slice, map every slice, reduce. For every slice size and every
      reduction size from 2 on, it gives the one-pass count whenever there are lines and all
      have four fields, and raises in exactly the other cases. */
  method MapReduceAll(lines: seq<string>, slice: nat, chunkSize: int, toInt: string -> Option<int>)
    returns (r: Result<Counter>)
    requires 0 < slice && 2 <= chunkSize
    ensures r.Ok? <==> lines != [] && Entries(lines, true, toInt).Some?
    ensures r.Ok? ==> Entries(lines, false, toInt).Some? && r.value == Total(Entries(lines, false, toInt).value)
  {
    var chunks := Partition(lines, slice);
    ChunksFlatten(lines, slice);
    MappedTotal(chunks, toInt);
    StrictIsLoose(lines, toInt);
    var counters := MapAll(chunks, toInt);
    match counters
    case Raise => r := Raise;
    case Ok(cs) => r := Reduce(cs, chunkSize);
  }
}
