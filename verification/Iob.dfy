/** Decoding of IOB labels into entity spans (extractor/deberta/deberta_extractor.go). */
module Iob {
  import opened Text

  datatype EntitySpan = EntitySpan(surface: string, kind: string)

  /** What a label says: a run of some entity class opens, goes on, or there is none. */
  datatype Tag = Open(kind: string) | Inside(kind: string) | Outside

  /** A bare "B-" or "I-" names no class and counts as outside. */
  function TagOf(lbl: string): Tag {
    if "B-" <= lbl && |lbl| > 2 then Open(lbl[2..])
    else if "I-" <= lbl && |lbl| > 2 then Inside(lbl[2..])
    else Outside
  }

  function Label(tag: Tag): string {
    match tag
    case Open(kind) => "B-" + kind
    case Inside(kind) => "I-" + kind
    case Outside => "O"
  }

  predicate Named(tag: Tag) {
    tag.Outside? || tag.kind != ""
  }

  function TagsOf(labels: seq<string>): (tags: seq<Tag>)
    ensures |tags| == |labels| && forall i :: 0 <= i < |labels| ==> tags[i] == TagOf(labels[i])
  {
    seq(|labels|, i requires 0 <= i < |labels| => TagOf(labels[i]))
  }

  lemma TagOfLabel(tag: Tag)
    requires Named(tag)
    ensures TagOf(Label(tag)) == tag
  {
    var lbl := Label(tag);
    if tag.Outside? {
      assert lbl[0] == 'O';
    } else {
      assert lbl[0] == if tag.Open? then 'B' else 'I';
      assert lbl[2..] == tag.kind;
    }
  }

  // ------------------------------------------------------------------- runs of tags

  /** Words from .. to - 1 carry one entity class, its kind. */
  datatype Run = Run(from: nat, to: nat, kind: string)

  // Where a run that is open before position i ends.
  function RunEnd(tags: seq<Tag>, i: nat, kind: string): (e: nat)
    requires i <= |tags|
    ensures i <= e <= |tags|
    decreases |tags| - i
  {
    if i < |tags| && tags[i] == Inside(kind) then RunEnd(tags, i + 1, kind) else i
  }

  lemma {:induction false} RunEndIsMaximal(tags: seq<Tag>, i: nat, kind: string)
    requires i <= |tags|
    ensures forall j :: i <= j < RunEnd(tags, i, kind) ==> tags[j] == Inside(kind)
    ensures RunEnd(tags, i, kind) < |tags| ==> tags[RunEnd(tags, i, kind)] != Inside(kind)
    decreases |tags| - i
  {
    if i >= |tags| || tags[i] != Inside(kind) {
    } else {
      RunEndIsMaximal(tags, i + 1, kind);
    }
  }

  /** The runs of the tags from position i on, when none is open before it. */
  function RunsFrom(tags: seq<Tag>, i: nat): seq<Run>
    requires i <= |tags|
    decreases |tags| - i
  {
    if i == |tags| then []
    else if tags[i].Outside? then RunsFrom(tags, i + 1)
    else
      var e := RunEnd(tags, i + 1, tags[i].kind);
      [Run(i, e, tags[i].kind)] + RunsFrom(tags, e)
  }

  // Words from .. to - 1; a label beyond the last word has the empty word.
  function WordsAt(words: seq<string>, from: nat, to: nat): seq<string>
    decreases to
  {
    if to <= from then [] else WordsAt(words, from, to - 1) + [WordAt(words, to - 1)]
  }

  function WordAt(words: seq<string>, i: nat): string {
    if i < |words| then words[i] else ""
  }

  function SpanOf(words: seq<string>, r: Run): EntitySpan {
    EntitySpan(Spaced(WordsAt(words, r.from, r.to)), r.kind)
  }

  function SpansOf(words: seq<string>, runs: seq<Run>): (spans: seq<EntitySpan>)
    ensures |spans| == |runs|
  {
    if runs == [] then [] else [SpanOf(words, runs[0])] + SpansOf(words, runs[1..])
  }

  // ------------------------------------------------------------------- the decoder

  // The spans still to come when nothing is open before position i ...
  function Ahead(tags: seq<Tag>, words: seq<string>, i: nat): seq<EntitySpan>
    requires i <= |tags|
  {
    SpansOf(words, RunsFrom(tags, i))
  }

  // ... and when the words from .. i - 1 are collected under one class.
  function Pending(tags: seq<Tag>, words: seq<string>, from: nat, i: nat, kind: string): seq<EntitySpan>
    requires i <= |tags|
  {
    var e := RunEnd(tags, i, kind);
    [SpanOf(words, Run(from, e, kind))] + Ahead(tags, words, e)
  }

  lemma AheadOpens(tags: seq<Tag>, words: seq<string>, i: nat)
    requires i < |tags|
    ensures tags[i].Outside? ==> Ahead(tags, words, i) == Ahead(tags, words, i + 1)
    ensures !tags[i].Outside? ==> Ahead(tags, words, i) == Pending(tags, words, i, i + 1, tags[i].kind)
  {
    if !tags[i].Outside? {
      var e := RunEnd(tags, i + 1, tags[i].kind);
      assert RunsFrom(tags, i)[1..] == RunsFrom(tags, e);
    }
  }

  // The closure `flush`: the collected words become a span if they have a class.
  function Flush(spans: seq<EntitySpan>, curLabel: string, curWords: seq<string>): seq<EntitySpan> {
    if |curWords| > 0 && curLabel != "" then spans + [EntitySpan(Spaced(curWords), curLabel)] else spans
  }

  // The decoder's state agrees with the runs: nothing open, or the words from .. i - 1 collected.
  ghost predicate Agrees(tags: seq<Tag>, words: seq<string>, i: nat, from: nat,
                         spans: seq<EntitySpan>, curLabel: string, curWords: seq<string>)
    requires i <= |tags|
  {
    if curLabel == "" then Ahead(tags, words, 0) == spans + Ahead(tags, words, i)
    else
      && from < i && curWords == WordsAt(words, from, i)
      && Ahead(tags, words, 0) == spans + Pending(tags, words, from, i, curLabel)
  }

  lemma Regroup(a: seq<EntitySpan>, b: seq<EntitySpan>, c: seq<EntitySpan>)
    ensures a + (b + c) == (a + b) + c
  {
  }

  lemma FlushAgrees(tags: seq<Tag>, words: seq<string>, i: nat, from: nat,
                    spans: seq<EntitySpan>, curLabel: string, curWords: seq<string>)
    requires i <= |tags| && Agrees(tags, words, i, from, spans, curLabel, curWords)
    requires curLabel != "" ==> i == |tags| || tags[i] != Inside(curLabel)
    ensures Agrees(tags, words, i, from, Flush(spans, curLabel, curWords), "", [])
  {
    if curLabel != "" {
      var span := SpanOf(words, Run(from, i, curLabel));
      assert Pending(tags, words, from, i, curLabel) == [span] + Ahead(tags, words, i);
      Regroup(spans, [span], Ahead(tags, words, i));
    }
  }

  // The next tag, with nothing open.
  lemma OpenAgrees(tags: seq<Tag>, words: seq<string>, i: nat, from: nat, spans: seq<EntitySpan>)
    requires i < |tags| && Agrees(tags, words, i, from, spans, "", []) && Named(tags[i])
    ensures tags[i].Outside? ==> Agrees(tags, words, i + 1, from, spans, "", [])
    ensures !tags[i].Outside? ==> Agrees(tags, words, i + 1, i, spans, tags[i].kind, [WordAt(words, i)])
  {
    AheadOpens(tags, words, i);
    assert WordsAt(words, i, i) == [];
    assert WordsAt(words, i, i + 1) == [WordAt(words, i)];
  }

  /** One pass over the labels; its spans are those of the runs. */
  method DecodeIob(wordLabels: seq<string>, words: seq<string>) returns (spans: seq<EntitySpan>)
    ensures spans == SpansOf(words, RunsFrom(TagsOf(wordLabels), 0))
  {
    spans := [];
    var curLabel, curWords := "", [];
    ghost var from := 0;
    ghost var tags := TagsOf(wordLabels);
    for i := 0 to |wordLabels|
      invariant Agrees(tags, words, i, from, spans, curLabel, curWords)
    {
      var lbl := wordLabels[i];
      var word := if i < |words| then words[i] else "";
      ghost var tag := tags[i];
      Prefixes(lbl);
      if "B-" <= lbl {
        FlushAgrees(tags, words, i, from, spans, curLabel, curWords);
        spans := Flush(spans, curLabel, curWords);
        OpenAgrees(tags, words, i, from, spans);
        curLabel, curWords, from := lbl[2..], [word], i;
      } else if "I-" <= lbl {
        var nerClass := lbl[2..];
        if curLabel == nerClass {
          if curLabel == "" {
            AheadOpens(tags, words, i);
          }
          curWords := curWords + [word];
        } else {
          FlushAgrees(tags, words, i, from, spans, curLabel, curWords);
          spans := Flush(spans, curLabel, curWords);
          OpenAgrees(tags, words, i, from, spans);
          curLabel, curWords, from := nerClass, [word], i;
        }
      } else {
        FlushAgrees(tags, words, i, from, spans, curLabel, curWords);
        spans := Flush(spans, curLabel, curWords);
        OpenAgrees(tags, words, i, from, spans);
        curLabel, curWords := "", [];
      }
    }
    FlushAgrees(tags, words, |wordLabels|, from, spans, curLabel, curWords);
    spans := Flush(spans, curLabel, curWords);
  }

  lemma Prefixes(lbl: string)
    ensures "B-" <= lbl ==> TagOf(lbl) == if lbl[2..] == "" then Outside else Open(lbl[2..])
    ensures "I-" <= lbl ==> TagOf(lbl) == if lbl[2..] == "" then Outside else Inside(lbl[2..])
    ensures !("B-" <= lbl) && !("I-" <= lbl) ==> TagOf(lbl) == Outside
  {
    if "B-" <= lbl { assert lbl[0] == 'B'; }
  }

  // ------------------------------------------------------------- what the runs are

  /** A run starts at i: the tag opens one, or its class is not that of the tag before. */
  predicate Starts(tags: seq<Tag>, i: nat)
    requires i < |tags|
  {
    !tags[i].Outside? && (tags[i].Open? || i == 0 || tags[i - 1].Outside? || tags[i - 1].kind != tags[i].kind)
  }

  predicate IsRun(tags: seq<Tag>, r: Run) {
    && r.from < r.to <= |tags|
    && Starts(tags, r.from)
    && (forall j :: r.from <= j < r.to ==> !tags[j].Outside? && tags[j].kind == r.kind)
    && (forall j :: r.from < j < r.to ==> !Starts(tags, j))
    && (r.to < |tags| ==> tags[r.to].Outside? || Starts(tags, r.to))
  }

  predicate Ordered(runs: seq<Run>) {
    forall j, k :: 0 <= j < k < |runs| ==> runs[j].to <= runs[k].from
  }

  ghost predicate Covered(runs: seq<Run>, i: nat) {
    exists r :: r in runs && r.from <= i < r.to
  }

  // The runs hold every position from i on that has a class, and no other.
  ghost predicate Partitions(tags: seq<Tag>, runs: seq<Run>, i: nat) {
    && Ordered(runs)
    && (forall r :: r in runs ==> i <= r.from && IsRun(tags, r))
    && forall j :: i <= j < |tags| ==> (Covered(runs, j) <==> !tags[j].Outside?)
  }

  /** The runs are maximal stretches of one class that start where a tag opens one or the
      class changes; they come in order without overlap, and they hold every position with
      a class and no other. */
  lemma RunsPartitionTheTags(tags: seq<Tag>)
    ensures Ordered(RunsFrom(tags, 0))
    ensures forall r :: r in RunsFrom(tags, 0) ==> IsRun(tags, r)
    ensures forall i :: 0 <= i < |tags| ==> (Covered(RunsFrom(tags, 0), i) <==> !tags[i].Outside?)
  {
    RunsFromPartition(tags, 0);
  }

  lemma FirstRun(tags: seq<Tag>, i: nat)
    requires i < |tags| && Starts(tags, i)
    ensures IsRun(tags, Run(i, RunEnd(tags, i + 1, tags[i].kind), tags[i].kind))
  {
    RunEndIsMaximal(tags, i + 1, tags[i].kind);
  }

  lemma {:induction false} RunsFromPartition(tags: seq<Tag>, i: nat)
    requires i <= |tags| && (i < |tags| ==> tags[i].Outside? || Starts(tags, i))
    ensures Partitions(tags, RunsFrom(tags, i), i)
    decreases |tags| - i
  {
    if i == |tags| {
    } else if tags[i].Outside? {
      RunsFromPartition(tags, i + 1);
      OutsideMore(tags, RunsFrom(tags, i + 1), i);
    } else {
      var r := Run(i, RunEnd(tags, i + 1, tags[i].kind), tags[i].kind);
      FirstRun(tags, i);
      RunsFromPartition(tags, r.to);
      RunMore(tags, r, RunsFrom(tags, r.to));
    }
  }

  lemma OutsideMore(tags: seq<Tag>, runs: seq<Run>, i: nat)
    requires i < |tags| && tags[i].Outside? && Partitions(tags, runs, i + 1)
    ensures Partitions(tags, runs, i)
  {
    assert !Covered(runs, i);
  }

  lemma RunMore(tags: seq<Tag>, r: Run, rest: seq<Run>)
    requires IsRun(tags, r) && Partitions(tags, rest, r.to)
    ensures Partitions(tags, [r] + rest, r.from)
  {
    var runs := [r] + rest;
    CoverMore(r, rest, |tags|);
    forall j | r.from <= j < |tags|
      ensures Covered(runs, j) <==> !tags[j].Outside?
    {
      assert Covered(runs, j) <==> j < r.to || Covered(rest, j);
    }
    forall q | q in runs
      ensures r.from <= q.from && IsRun(tags, q)
    {
      assert q == r || q in rest;
    }
    OrderedMore(r, rest);
  }

  lemma CoverMore(r: Run, rest: seq<Run>, n: nat)
    requires forall q :: q in rest ==> r.to <= q.from
    ensures forall j :: r.from <= j < n ==> (Covered([r] + rest, j) <==> j < r.to || Covered(rest, j))
  {
    var runs := [r] + rest;
    assert forall q :: q in runs <==> q == r || q in rest;
  }

  lemma OrderedMore(r: Run, rest: seq<Run>)
    requires Ordered(rest) && forall q :: q in rest ==> r.to <= q.from
    ensures Ordered([r] + rest)
  {
    var runs := [r] + rest;
    forall j, k | 0 <= j < k < |runs|
      ensures runs[j].to <= runs[k].from
    {
      assert runs[k] == rest[k - 1] && rest[k - 1] in rest;
    }
  }

  // ---------------------------------------------------------------- the round trip

  /** The tags of a list of runs. */
  function TagAt(runs: seq<Run>, i: nat): Tag {
    if runs == [] then Outside
    else if i == runs[0].from then Open(runs[0].kind)
    else if runs[0].from < i < runs[0].to then Inside(runs[0].kind)
    else TagAt(runs[1..], i)
  }

  function Encoding(runs: seq<Run>, n: nat): (tags: seq<Tag>)
    ensures |tags| == n && forall i :: 0 <= i < n ==> tags[i] == TagAt(runs, i)
  {
    seq(n, i requires 0 <= i < n => TagAt(runs, i))
  }

  ghost predicate Encodable(runs: seq<Run>, n: nat) {
    && Ordered(runs)
    && forall k :: 0 <= k < |runs| ==> runs[k].from < runs[k].to <= n && runs[k].kind != ""
  }

  lemma {:induction false} TagOfRun(runs: seq<Run>, n: nat, k: nat, i: nat)
    requires Encodable(runs, n) && k <= |runs|
    requires k == |runs| || i < runs[k].to
    requires k > 0 ==> runs[k - 1].to <= i
    ensures TagAt(runs, i) ==
              if k == |runs| || i < runs[k].from then Outside
              else if i == runs[k].from then Open(runs[k].kind)
              else Inside(runs[k].kind)
  {
    if k > 0 {
      assert runs[0].to <= i;
      assert Encodable(runs[1..], n);
      TagOfRun(runs[1..], n, k - 1, i);
    } else if runs != [] && i < runs[0].from {
      assert Encodable(runs[1..], n);
      TagBefore(runs[1..], n, i);
    }
  }

  lemma {:induction false} TagBefore(runs: seq<Run>, n: nat, i: nat)
    requires Encodable(runs, n) && forall k :: 0 <= k < |runs| ==> i < runs[k].from
    ensures TagAt(runs, i) == Outside
  {
    if runs == [] {
    } else {
      assert Encodable(runs[1..], n);
      TagBefore(runs[1..], n, i);
    }
  }

  /** Decoding the labels of any list of disjoint runs returns that list, also when runs
      of one class touch. */
  lemma DecodeOfEncoding(runs: seq<Run>, n: nat, labels: seq<string>)
    requires Encodable(runs, n)
    requires |labels| == n && forall i :: 0 <= i < n ==> labels[i] == Label(TagAt(runs, i))
    ensures RunsFrom(TagsOf(labels), 0) == runs
  {
    forall i | 0 <= i < n
      ensures TagsOf(labels)[i] == Encoding(runs, n)[i]
    {
      TagsOfRunsAreNamed(runs, n, i);
      TagOfLabel(TagAt(runs, i));
    }
    assert TagsOf(labels) == Encoding(runs, n);
    DecodeFrom(runs, n, 0, 0);
    assert runs[0..] == runs;
  }

  lemma {:induction false} TagsOfRunsAreNamed(runs: seq<Run>, n: nat, i: nat)
    requires Encodable(runs, n)
    ensures Named(TagAt(runs, i))
  {
    if runs == [] {
    } else {
      assert Encodable(runs[1..], n);
      TagsOfRunsAreNamed(runs[1..], n, i);
    }
  }

  lemma {:induction false} DecodeFrom(runs: seq<Run>, n: nat, k: nat, i: nat)
    requires Encodable(runs, n) && k <= |runs| && i <= n
    requires k < |runs| ==> i <= runs[k].from
    requires k > 0 ==> runs[k - 1].to <= i
    ensures RunsFrom(Encoding(runs, n), i) == runs[k..]
    decreases n - i
  {
    if i >= n {
    } else {
      TagOfRun(runs, n, k, i);
      if k == |runs| || i < runs[k].from {
        DecodeFrom(runs, n, k, i + 1);
      } else {
        EndOfEncoding(runs, n, k, i + 1);
        DecodeFrom(runs, n, k + 1, runs[k].to);
        assert runs[k..] == [runs[k]] + runs[k + 1..];
      }
    }
  }

  lemma {:induction false} EndOfEncoding(runs: seq<Run>, n: nat, k: nat, i: nat)
    requires Encodable(runs, n) && k < |runs| && runs[k].from < i <= runs[k].to
    ensures RunEnd(Encoding(runs, n), i, runs[k].kind) == runs[k].to
    decreases n - i
  {
    if i < runs[k].to {
      assert k > 0 ==> runs[k - 1].to <= runs[k].from;
      TagOfRun(runs, n, k, i);
      EndOfEncoding(runs, n, k, i + 1);
    } else if i < n {
      assert k + 1 < |runs| ==> runs[k].to <= runs[k + 1].from;
      TagOfRun(runs, n, k + 1, i);
    }
  }

  // ------------------------------------------------------ what a span is for a caller

  /** A span has the class of its run, and its surface is the words of the run with blanks in
      between, words beyond the list being empty. */
  lemma SpansMean(words: seq<string>, runs: seq<Run>, k: nat) returns (ws: seq<string>)
    requires k < |runs| && runs[k].from < runs[k].to
    ensures SpansOf(words, runs)[k].kind == runs[k].kind && SpansOf(words, runs)[k].surface == Spaced(ws)
    ensures |ws| == runs[k].to - runs[k].from
    ensures forall j :: runs[k].from <= j < runs[k].to ==>
              ws[j - runs[k].from] == if j < |words| then words[j] else ""
    ensures runs[k].to == runs[k].from + 1 ==> Spaced(ws) == ws[0]
  {
    ws := WordsAt(words, runs[k].from, runs[k].to);
    SpanAt(words, runs, k);
    WordsAtMean(words, runs[k].from, runs[k].to);
    if |ws| == 1 {
      SpacedMeans([], ws[0]);
      assert ws == [ws[0]];
    }
  }

  lemma {:induction false} SpanAt(words: seq<string>, runs: seq<Run>, k: nat)
    requires k < |runs|
    ensures SpansOf(words, runs)[k] == EntitySpan(Spaced(WordsAt(words, runs[k].from, runs[k].to)), runs[k].kind)
  {
    if k == 0 {
    } else {
      SpanAt(words, runs[1..], k - 1);
    }
  }

  lemma {:induction false} WordsAtMean(words: seq<string>, from: nat, to: nat)
    requires from <= to
    ensures |WordsAt(words, from, to)| == to - from
    ensures forall j :: from <= j < to ==> WordsAt(words, from, to)[j - from] == if j < |words| then words[j] else ""
  {
    if from == to {
    } else {
      WordsAtMean(words, from, to - 1);
      var front, ws := WordsAt(words, from, to - 1), WordsAt(words, from, to);
      forall j | from <= j < to
        ensures ws[j - from] == if j < |words| then words[j] else ""
      {
        if j < to - 1 {
          assert ws[j - from] == front[j - from];
        }
      }
    }
  }
}
