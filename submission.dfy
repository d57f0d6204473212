/**
 * The inference loop and the submission file: the header, one row per
 * usable image in batch order, then one fallback row per corrupted id.
 * The classifier is a parameter `score(path, c)`: the logit of class `c`
 * for the image at `path` (decoding and the network together).
 */
module Submission {

  import opened Wrappers
  import opened Text
  import opened Validator
  import opened Batching
  import opened Ranking

  const HEADER: string := "id,predicted"

  /** The classes every corrupted file is given. */
  const FALLBACK_CLASSES: seq<nat> := [93, 83, 2]

  /** The logits of one image over classes 0 .. numClasses - 1. */
  function Scores(score: (string, nat) -> int, path: string, numClasses: nat): seq<int>
  {
    seq(numClasses, c requires 0 <= c < numClasses => score(path, c))
  }

  /** The `top_3` prediction for the image at `path`. */
  function Top3(score: (string, nat) -> int, numClasses: nat, path: string): (r: seq<nat>)
    requires numClasses >= 3
    ensures IsTopK(Scores(score, path, numClasses), 3, r)
  {
    TopK(Scores(score, path, numClasses), 3)
  }

  /** `str(c)` for each class index. */
  function Decimals(classes: seq<nat>): (ds: seq<string>)
  {
    seq(|classes|, i requires 0 <= i < |classes| => NatToString(classes[i]))
  }

  /** A row `id,c1 c2 ...`: the id, a comma, the classes in decimal separated by spaces. */
  function Row(id: string, classes: seq<nat>): string
  {
    id + "," + Join(Decimals(classes), ' ')
  }

  /** The row written for a corrupted id. */
  function FallbackRow(id: string): string
  {
    id + ",93 83 2"
  }

  /**
   * Reads a row back: the id is everything before the last comma, the
   * classes the space-separated decimals after it.
   */
  function ParseRow(line: string): Option<(string, seq<nat>)>
  {
    match LastIndexOf(line, ',')
    case None => None
    case Some(i) =>
      var tokens := Split(line[i + 1..], ' ');
      if forall k | 0 <= k < |tokens| :: IsCanonical(tokens[k]) then
        Some((line[..i], seq(|tokens|, k requires 0 <= k < |tokens| => DigitsValue(tokens[k]))))
      else None
  }

  lemma CanonicalHasNo(s: string, c: char)
    requires IsCanonical(s) && !IsDigit(c)
    ensures c !in s
  {
  }

  /**
   * Every row reads back as its id and its classes, whatever the id holds
   * (commas included): the decimals after the last comma hold no comma.
   */
  lemma RowRoundTrip(id: string, classes: seq<nat>)
    requires |classes| >= 1
    ensures ParseRow(Row(id, classes)) == Some((id, classes))
  {
    var ds := Decimals(classes);
    var tail := Join(ds, ' ');
    var line := Row(id, classes);
    forall i | 0 <= i < |ds|
      ensures ',' !in ds[i] && ' ' !in ds[i] && IsCanonical(ds[i])
      ensures DigitsValue(ds[i]) == classes[i]
    {
      ParseNatToString(classes[i]);
      CanonicalHasNo(ds[i], ',');
      CanonicalHasNo(ds[i], ' ');
    }
    JoinAvoids(ds, ' ', ',');
    assert line[|id|] == ',' && line[|id| + 1..] == tail;
    LastIndexOfUnique(line, ',', |id|);
    SplitJoin(ds, ' ');
    assert line[..|id|] == id;
    var tokens := Split(tail, ' ');
    assert tokens == ds;
    var back := seq(|tokens|, k requires 0 <= k < |tokens| => DigitsValue(tokens[k]));
    assert back == classes;
  }

  /** The fallback row is the row of the classes 93, 83, 2, and reads back as them. */
  lemma FallbackRowIsRow(id: string)
    ensures FallbackRow(id) == Row(id, FALLBACK_CLASSES)
    ensures ParseRow(FallbackRow(id)) == Some((id, FALLBACK_CLASSES))
  {
    var ds := Decimals(FALLBACK_CLASSES);
    assert NatToString(93) == "93" && NatToString(83) == "83" && NatToString(2) == "2";
    assert ds == ["93", "83", "2"];
    assert Join(ds, ' ') == "93" + " " + Join(["83", "2"], ' ');
    assert Join(["83", "2"], ' ') == "83" + " " + Join(["2"], ' ');
    RowRoundTrip(id, FALLBACK_CLASSES);
  }

  /** The (path, id) pairs the dataset is built from. */
  function Zip(paths: seq<string>, ids: seq<string>): seq<(string, string)>
    requires |paths| == |ids|
  {
    seq(|paths|, k requires 0 <= k < |paths| => (paths[k], ids[k]))
  }

  /** The prediction rows of (path, id) items, one per item, in order. */
  function PredictionRows(items: seq<(string, string)>, score: (string, nat) -> int, numClasses: nat): (rows: seq<string>)
    requires numClasses >= 3
  {
    seq(|items|, k requires 0 <= k < |items| => Row(items[k].1, Top3(score, numClasses, items[k].0)))
  }

  lemma PredictionRowsAppend(items: seq<(string, string)>, x: (string, string),
                             score: (string, nat) -> int, numClasses: nat)
    requires numClasses >= 3
    ensures PredictionRows(items + [x], score, numClasses)
         == PredictionRows(items, score, numClasses) + [Row(x.1, Top3(score, numClasses, x.0))]
  {
  }

  lemma FallbackRowsAppend(ids: seq<string>, id: string)
    ensures FallbackRows(ids + [id]) == FallbackRows(ids) + [FallbackRow(id)]
  {
  }

  /** The fallback rows of the corrupted ids, one per id, in order. */
  function FallbackRows(ids: seq<string>): (rows: seq<string>)
  {
    seq(|ids|, k requires 0 <= k < |ids| => FallbackRow(ids[k]))
  }

  lemma RowsAt(items: seq<(string, string)>, ids: seq<string>, score: (string, nat) -> int, numClasses: nat)
    requires numClasses >= 3
    ensures |PredictionRows(items, score, numClasses)| == |items|
    ensures forall k :: 0 <= k < |items| ==>
      PredictionRows(items, score, numClasses)[k] == Row(items[k].1, Top3(score, numClasses, items[k].0))
    ensures |FallbackRows(ids)| == |ids|
    ensures forall k :: 0 <= k < |ids| ==> FallbackRows(ids)[k] == FallbackRow(ids[k])
  {
  }

  /** The lines of the submission file for a listing, independent of how it is batched. */
  function SubmissionLines(dir: string, listing: seq<Entry>, score: (string, nat) -> int, numClasses: nat): seq<string>
    requires numClasses >= 3
  {
    TriageCounts(dir, listing);
    var t := Triage(dir, listing);
    [HEADER] + PredictionRows(Zip(t.imgPaths, t.fns), score, numClasses) + FallbackRows(t.corruptedFns)
  }

  lemma PredictionRowsConcat(xs: seq<(string, string)>, ys: seq<(string, string)>,
                             score: (string, nat) -> int, numClasses: nat)
    requires numClasses >= 3
    ensures PredictionRows(xs + ys, score, numClasses)
         == PredictionRows(xs, score, numClasses) + PredictionRows(ys, score, numClasses)
  {
  }

  /**
   * One iteration of the inference loop: score the batch, take each
   * image's top 3, and append one row per (id, prediction) pair, in order.
   */
  method WriteBatch(lines: seq<string>, batch: seq<(string, string)>,
                    score: (string, nat) -> int, numClasses: nat)
    returns (out: seq<string>)
    requires numClasses >= 3
    ensures out == lines + PredictionRows(batch, score, numClasses)
  {
    var top3 := seq(|batch|, k requires 0 <= k < |batch| => Top3(score, numClasses, batch[k].0));
    out := lines;
    for j := 0 to |batch|
      invariant out == lines + PredictionRows(batch[..j], score, numClasses)
    {
      out := out + [Row(batch[j].1, top3[j])];
      assert batch[..j + 1] == batch[..j] + [batch[j]];
      PredictionRowsAppend(batch[..j], batch[j], score, numClasses);
    }
    assert batch[..|batch|] == batch;
  }

  /** The closing loop: one fallback row per corrupted id, in order. */
  method WriteFallbackRows(lines: seq<string>, corruptedFns: seq<string>) returns (out: seq<string>)
    ensures out == lines + FallbackRows(corruptedFns)
  {
    out := lines;
    for c := 0 to |corruptedFns|
      invariant out == lines + FallbackRows(corruptedFns[..c])
    {
      out := out + [FallbackRow(corruptedFns[c])];
      assert corruptedFns[..c + 1] == corruptedFns[..c] + [corruptedFns[c]];
      FallbackRowsAppend(corruptedFns[..c], corruptedFns[c]);
    }
    assert corruptedFns[..|corruptedFns|] == corruptedFns;
  }

  /**
   * `init_data_generator`: the batches of (path, id) items in the order
   * the dataset delivers them, and how many batches the loop will pull.
   */
  method InitDataGenerator(items: seq<(string, string)>, batchSize: nat)
    returns (batches: seq<seq<(string, string)>>, numBatches: nat)
    requires batchSize >= 1
    ensures batches == Chunks(items, batchSize)
    ensures numBatches == NumBatches(|items|, batchSize)
    ensures |batches| == numBatches
    ensures Flatten(batches) == items
  {
    numBatches := NumBatches(|items|, batchSize);
    batches := Chunks(items, batchSize);
    ChunkCount(items, batchSize);
    FlattenChunks(items, batchSize);
  }

  /** Writing the rows of batch `i` extends the rows of the batches before it. */
  lemma BatchRowsStep(lines: seq<string>, batches: seq<seq<(string, string)>>, i: nat, out: seq<string>,
                      score: (string, nat) -> int, numClasses: nat)
    requires i < |batches| && numClasses >= 3
    requires out == lines + PredictionRows(Flatten(batches[..i]), score, numClasses)
    ensures out + PredictionRows(batches[i], score, numClasses)
         == lines + PredictionRows(Flatten(batches[..i + 1]), score, numClasses)
  {
    var prefix := Flatten(batches[..i]);
    FlattenStep(batches, i);
    PredictionRowsConcat(prefix, batches[i], score, numClasses);
    AppendAssociative(lines, PredictionRows(prefix, score, numClasses), PredictionRows(batches[i], score, numClasses));
  }

  lemma AppendAssociative<T>(a: seq<T>, b: seq<T>, c: seq<T>)
    ensures (a + b) + c == a + (b + c)
  {
  }

  /**
   * The inference loop of `main`: pull `numBatches` batches, in order, and
   * write the rows of each.
   */
  method WriteBatches(lines: seq<string>, batches: seq<seq<(string, string)>>, numBatches: nat,
                      score: (string, nat) -> int, numClasses: nat)
    returns (out: seq<string>)
    requires numBatches == |batches|
    requires numClasses >= 3
    ensures out == lines + PredictionRows(Flatten(batches), score, numClasses)
  {
    out := lines;
    var i := 0;
    while i < numBatches
      invariant 0 <= i <= numBatches
      invariant out == lines + PredictionRows(Flatten(batches[..i]), score, numClasses)
    {
      var batch := batches[i];
      BatchRowsStep(lines, batches, i, out, score, numClasses);
      out := WriteBatch(out, batch, score, numClasses);
      i := i + 1;
    }
    assert batches[..i] == batches;
  }

  /**
   * `main`: triage the listing, write the header, the rows of the usable
   * images batch by batch, then one fallback row per corrupted id. The
   * lines written do not depend on the batch size.
   */
  method Predict(dataDir: string, listing: seq<Entry>, batchSize: nat,
                 score: (string, nat) -> int, numClasses: nat)
    returns (lines: seq<string>)
    requires batchSize >= 1
    requires numClasses >= 3
    ensures lines == SubmissionLines(dataDir, listing, score, numClasses)
  {
    var imgPaths, fns, corruptedFns := ListFiles(dataDir, listing);
    assert |imgPaths| == |fns| by { TriageCounts(dataDir, listing); }
    var batches, numBatches := InitDataGenerator(Zip(imgPaths, fns), batchSize);
    lines := [HEADER];
    lines := WriteBatches(lines, batches, numBatches, score, numClasses);
    lines := WriteFallbackRows(lines, corruptedFns);
  }

  /**
   * The submission file, line by line, in terms of the listing: the header,
   * then the row of each usable entry in listing order (its id and the top 3
   * of its image), then the fallback row of each other entry in listing
   * order. Every entry gets exactly one line, and no fallback row comes
   * before a prediction row.
   */
  lemma SubmissionLayout(dir: string, listing: seq<Entry>, score: (string, nat) -> int, numClasses: nat)
    requires numClasses >= 3
    ensures var lines := SubmissionLines(dir, listing, score, numClasses);
      var us := Positions(listing, true);
      var cs := Positions(listing, false);
      && |us| + |cs| == |listing|
      && |lines| == 1 + |listing|
      && lines[0] == HEADER
      && (forall k :: 0 <= k < |us| ==>
            us[k] < |listing| &&
            lines[1 + k] == Row(IdOf(listing[us[k]].name), Top3(score, numClasses, JoinPath(dir, listing[us[k]].name))))
      && (forall k :: 0 <= k < |cs| ==>
            cs[k] < |listing| && lines[1 + |us| + k] == IdOf(listing[cs[k]].name) + ",93 83 2")
  {
    TriageCounts(dir, listing);
    LayoutUsable(dir, listing, score, numClasses);
    LayoutCorrupted(dir, listing, score, numClasses);
  }

  lemma LayoutUsable(dir: string, listing: seq<Entry>, score: (string, nat) -> int, numClasses: nat)
    requires numClasses >= 3
    ensures var lines := SubmissionLines(dir, listing, score, numClasses);
      var us := Positions(listing, true);
      && |lines| == 1 + |listing|
      && lines[0] == HEADER
      && forall k :: 0 <= k < |us| ==>
           us[k] < |listing| && 1 + k < |lines| &&
           lines[1 + k] == Row(IdOf(listing[us[k]].name), Top3(score, numClasses, JoinPath(dir, listing[us[k]].name)))
  {
    var t := Triage(dir, listing);
    TriageCounts(dir, listing);
    TriageUsable(dir, listing);
    var items := Zip(t.imgPaths, t.fns);
    RowsAt(items, t.corruptedFns, score, numClasses);
  }

  lemma LayoutCorrupted(dir: string, listing: seq<Entry>, score: (string, nat) -> int, numClasses: nat)
    requires numClasses >= 3
    ensures var lines := SubmissionLines(dir, listing, score, numClasses);
      var us := Positions(listing, true);
      var cs := Positions(listing, false);
      forall k :: 0 <= k < |cs| ==>
        cs[k] < |listing| && 1 + |us| + k < |lines| && lines[1 + |us| + k] == FallbackRow(IdOf(listing[cs[k]].name))
  {
    var t := Triage(dir, listing);
    TriageCounts(dir, listing);
    TriageCorrupted(dir, listing);
    var items := Zip(t.imgPaths, t.fns);
    var head := [HEADER] + PredictionRows(items, score, numClasses);
    var fallback := FallbackRows(t.corruptedFns);
    RowsAt(items, t.corruptedFns, score, numClasses);
    assert SubmissionLines(dir, listing, score, numClasses) == head + fallback;
    assert |head| == 1 + |Positions(listing, true)|;
  }

  /**
   * Every line after the header reads back as an id and three classes:
   * for a usable entry, its id and a top 3 of its scores; for any other,
   * its id and the fallback classes 93, 83, 2.
   */
  lemma SubmissionReadsBack(dir: string, listing: seq<Entry>, score: (string, nat) -> int, numClasses: nat)
    requires numClasses >= 3
    ensures var lines := SubmissionLines(dir, listing, score, numClasses);
      var us := Positions(listing, true);
      var cs := Positions(listing, false);
      && |lines| == 1 + |us| + |cs|
      && (forall k :: 0 <= k < |us| ==>
            us[k] < |listing| &&
            var path := JoinPath(dir, listing[us[k]].name);
            && ParseRow(lines[1 + k]) == Some((IdOf(listing[us[k]].name), Top3(score, numClasses, path)))
            && IsTopK(Scores(score, path, numClasses), 3, Top3(score, numClasses, path)))
      && (forall k :: 0 <= k < |cs| ==>
            cs[k] < |listing| && ParseRow(lines[1 + |us| + k]) == Some((IdOf(listing[cs[k]].name), FALLBACK_CLASSES)))
  {
    SubmissionLayout(dir, listing, score, numClasses);
    var us := Positions(listing, true);
    var cs := Positions(listing, false);
    forall k | 0 <= k < |us|
      ensures RowRoundTripHolds(IdOf(listing[us[k]].name), Top3(score, numClasses, JoinPath(dir, listing[us[k]].name)))
    {
      RowRoundTrip(IdOf(listing[us[k]].name), Top3(score, numClasses, JoinPath(dir, listing[us[k]].name)));
    }
    forall k | 0 <= k < |cs|
      ensures ParseRow(IdOf(listing[cs[k]].name) + ",93 83 2") == Some((IdOf(listing[cs[k]].name), FALLBACK_CLASSES))
    {
      FallbackRowIsRow(IdOf(listing[cs[k]].name));
    }
  }

  predicate RowRoundTripHolds(id: string, classes: seq<nat>)
  {
    ParseRow(Row(id, classes)) == Some((id, classes))
  }

  /** Ids and path of the three-file directory's entries. */
  lemma ThreeFileNames()
    ensures IdOf("a.jpg") == "a" && IdOf("b.jpg") == "b" && IdOf("c.png") == "c"
    ensures JoinPath("data", "a.jpg") == "data/a.jpg"
  {
    IdOfUnique("a.jpg", "a");
    IdOfUnique("b.jpg", "b");
    IdOfUnique("c.png", "c");
  }

  /** A usable entry followed by two unusable ones: one path and id, then two corrupted ids. */
  lemma TriageOneGoodTwoBad(dir: string, a: Entry, b: Entry, c: Entry)
    requires IsValid(a) && !IsValid(b) && !IsValid(c)
    ensures Triage(dir, [a, b, c]) == Triaged([JoinPath(dir, a.name)], [IdOf(a.name)], [IdOf(b.name), IdOf(c.name)])
  {
    TriageSnoc(dir, [], a);
    assert [] + [a] == [a];
    TriageSnoc(dir, [a], b);
    assert [a] + [b] == [a, b];
    TriageSnoc(dir, [a, b], c);
    assert [a, b] + [c] == [a, b, c];
  }

  /** Triage of the three-file directory: one usable image, two corrupted entries. */
  lemma ThreeFileTriage()
    ensures Triage("data", [Entry("a.jpg", 1024, Some("jpeg")), Entry("b.jpg", 1024, None),
                            Entry("c.png", 0, Some("png"))])
         == Triaged(["data/a.jpg"], ["a"], ["b", "c"])
  {
    var a, b, c := Entry("a.jpg", 1024, Some("jpeg")), Entry("b.jpg", 1024, None), Entry("c.png", 0, Some("png"));
    assert IsValid(a) && !IsValid(b) && !IsValid(c);
    TriageOneGoodTwoBad("data", a, b, c);
    ThreeFileNames();
  }

  /** The lines for one usable image followed by two corrupted entries. */
  lemma OneUsableTwoCorrupted(path: string, id: string, x: string, y: string,
                              score: (string, nat) -> int, numClasses: nat)
    requires numClasses >= 3
    ensures [HEADER] + PredictionRows(Zip([path], [id]), score, numClasses) + FallbackRows([x, y])
         == [HEADER, Row(id, Top3(score, numClasses, path)), FallbackRow(x), FallbackRow(y)]
  {
    RowsAt(Zip([path], [id]), [x, y], score, numClasses);
  }

  /**
   * A directory holding a valid `a.jpg`, a `b.jpg` whose header matches no
   * image format and an empty `c.png` gives the header, the row of `a`,
   * then the fallback rows of `b` and `c`.
   */
  lemma ThreeFileDirectory(score: (string, nat) -> int, numClasses: nat)
    requires numClasses >= 3
    ensures SubmissionLines("data", [Entry("a.jpg", 1024, Some("jpeg")), Entry("b.jpg", 1024, None),
                                     Entry("c.png", 0, Some("png"))], score, numClasses)
         == [HEADER, Row("a", Top3(score, numClasses, "data/a.jpg")), FallbackRow("b"), FallbackRow("c")]
  {
    ThreeFileTriage();
    OneUsableTwoCorrupted("data/a.jpg", "a", "b", "c", score, numClasses);
  }
}
