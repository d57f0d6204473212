# zalo-landmark prediction pipeline, in Dafny

This project models the prediction script of the zalo-landmark classifier
(`src/predict.py`). The script scans a data directory and sorts its files
into usable images and corrupted files. It feeds the usable images to the
network in fixed-size batches, takes the three best classes of each image,
and writes a CSV submission file. The file holds the header `id,predicted`,
then one row `id,c1 c2 c3` per usable image, then one row `id,93 83 2` per
corrupted file.

The model has six modules. `Wrappers` (`wrappers.dfy`) holds only the
`Option` type. The other five follow the script:

- `Validator` (`validator.dfy`) covers `is_valid` and `list_files`.
  - A directory entry is a name, a size in bytes, and the format detected
    from its header bytes.
  - `ListFiles` is the triage loop. `Triage` is its specification.
  - The lemmas prove the following. Every entry lands on exactly one side.
    Each side keeps listing order. The k-th usable entry gives the k-th
    path and id, and each id is the file name up to its first dot.
- `Batching` (`batching.dfy`) covers the batch count `ceil(N / batch_size)`
  and the dataset's ordered chunking.
  - The lemmas give the number of batches and their sizes.
  - They also prove that concatenating the batches in order gives back the
    items, whatever the batch size.
- `Ranking` (`ranking.dfy`) covers `tf.nn.top_k` over an abstract
  integer score.
  - `IsTopK` states what top-k promises.
  - `TopK` is a selection that meets it.
  - `TopKUnique` shows that only one answer meets it.
- `Text` (`text.dfy`) covers splitting on a character, joining, and
  decimal rendering and parsing of class indices.
  - Splitting and joining are proved inverse to each other, and so are
    decimal rendering and parsing.
  - `LastIndexOf` is a helper of the row reader `ParseRow`. It is pinned
    down by `LastIndexOfUnique`.
- `Submission` (`submission.dfy`) covers `main`'s writing loops.
  - The methods are `WriteBatch`, `WriteBatches`, `WriteFallbackRows`,
    `InitDataGenerator` and `Predict`.
  - `WriteBatch` and `WriteBatches` are proved against `PredictionRows`.
  - `WriteFallbackRows` is proved against `FallbackRows`.
  - `InitDataGenerator` is proved against `Chunks`, `NumBatches` and
    `Flatten`.
  - `Predict` is proved against `SubmissionLines`, which defines the whole
    file without batches.
  - `SubmissionLayout` describes the file line by line in terms of the
    listing.
  - `SubmissionReadsBack` proves that every row parses back to its id and
    classes.

The classifier (image decoding plus the network) is a parameter
`score(path, c)`: the logit of class `c` for the image at `path`.

## Model

| member | source | states |
|---|---|---|
| Validator.IsValid | src/predict.py:35-40 | An entry is usable iff its size is non-zero and its detected format is jpeg, png or gif; a zero-byte entry is never usable, whatever its format. |
| Validator.IdOf | src/predict.py:51-53 | The id is a prefix of the name, holds no dot, and is followed in the name by a dot unless it is the whole name. |
| Validator.IdOfUnique | src/predict.py:51-53 | Any prefix with those three properties is the id, so the id is exactly the text before the first dot. |
| Validator.SameStemSameId | src/predict.py:51-53 | Ids are not de-duplicated: `a.jpg` and `a.png` both give `a`, `a.b.jpg` gives `a`, `.x` gives the empty id, and `noext` gives `noext`. |
| Validator.JoinPath | src/predict.py:48 | Definition of `os.path.join(data_dir, fn)`; its properties are in `JoinPathShape`. |
| Validator.JoinPathShape | src/predict.py:48 | The joined path ends with the file name. A relative name keeps the directory as prefix, with a separator before the name. An absolute name replaces the directory. |
| Validator.Triage | src/predict.py:43-54 | Definition of what `list_files` returns for a listing, one entry at a time; the specification of `ListFiles`, with properties in `TriageCounts`, `TriageUsable`, `TriageCorrupted`. |
| Validator.ListFiles | src/predict.py:43-54 | The loop returns exactly the triage of the whole listing: paths, ids and corrupted ids. |
| Validator.PositionsExact | src/predict.py:47-53 | The positions of the usable (or of the corrupted) entries are increasing and in range, and none is missing. |
| Validator.TriageCounts | src/predict.py:43-54 | There are as many paths as usable ids, and usable plus corrupted ids number exactly the listed entries. |
| Validator.TriageUsable | src/predict.py:47-51 | The k-th path and k-th id come from the k-th usable entry in listing order: its joined path and its id. |
| Validator.TriageCorrupted | src/predict.py:52-53 | The k-th corrupted id is the id of the k-th unusable entry in listing order. |
| Validator.PositionsPartition | src/predict.py:49-53 | Every listed position is on the side its validity selects and not on the other. |
| Batching.NumBatches | src/predict.py:59 | Definition of `num_batches` as integer ceiling division; its properties are in `NumBatchesIsCeiling` and `NumBatchesUnique`. |
| Batching.NumBatchesIsCeiling | src/predict.py:59 | The batch count times the batch size covers all N items, and one batch fewer would not. |
| Batching.NumBatchesUnique | src/predict.py:59 | Any count with that covering property equals the batch count. |
| Batching.Chunks | src/predict.py:63-65 | Definition of the dataset's batches: the items cut in order into pieces of the batch size, the last possibly shorter; properties in `ChunkCount`, `ChunkSizes`, `FlattenChunks`. |
| Batching.ChunkCount | src/predict.py:59-65 | The dataset yields exactly `num_batches` batches, and none iff there are no items. |
| Batching.ChunkSizes | src/predict.py:65 | Every batch but the last holds `batch_size` items. The last holds `N - batch_size*(num_batches-1)` items, between 1 and `batch_size`. |
| Batching.FlattenChunks | src/predict.py:63-65 | Concatenating the batches in order gives back the (path, id) items, in order. |
| Batching.BatchSizeIrrelevant | src/predict.py:65 | Any two batch sizes deliver the same item sequence. |
| Ranking.BestBelow | src/predict.py:83 | Returns a class below n not yet chosen that outranks every other such class; returns None only when all are chosen. |
| Ranking.TopK | src/predict.py:83 | The result has k in-range indices. Each outranks the ones after it, so they are distinct with non-increasing scores. Each outranks every class left out. Ties go to the lower index. |
| Ranking.TopKUnique | src/predict.py:83 | Two index lists that both meet the top-k specification are equal. |
| Ranking.Top3Properties | src/predict.py:83 | The top 3 are three distinct in-range classes with non-increasing scores; no class left out scores above the third. |
| Text.Split | src/predict.py:51 | Splitting yields at least one part, and no part holds the separator. |
| Text.JoinSplit | src/predict.py:51 | Joining the parts of a split with the separator gives back the string. |
| Text.Join | src/predict.py:118 | Definition of `' '.join`; properties in `JoinSplit`, `SplitJoin`, `JoinAvoids`. |
| Text.SplitJoin | src/predict.py:118 | Splitting a join of separator-free parts gives back the parts. |
| Text.JoinAvoids | src/predict.py:118 | A join holds no character that is absent from every part and differs from the separator. |
| Text.NatToString | src/predict.py:118 | `str(p)` is canonical decimal: non-empty digits with no leading zero. |
| Text.ParseNatToString | src/predict.py:118 | Parsing the decimal of n gives n. |
| Text.NatToStringOfParse | src/predict.py:118 | Every canonical decimal is the decimal of its value. |
| Submission.Decimals | src/predict.py:118 | Definition of `[str(p) for p in preds]`; each element is canonical decimal by `NatToString`, and `RowRoundTrip` reads them back. |
| Submission.Row | src/predict.py:117-118 | Definition of a prediction row `id,c1 c2 c3`; `RowRoundTrip` proves it reads back as its id and classes. |
| Submission.FallbackRow | src/predict.py:121 | Definition of the corrupted-file row; `FallbackRowIsRow` proves it is the row of 93, 83, 2. |
| Submission.PredictionRows | src/predict.py:116-118 | Definition of the rows of a sequence of (path, id) items, one per item, in order; specification of `WriteBatch` and `WriteBatches`. |
| Submission.FallbackRows | src/predict.py:120-121 | Definition of the rows of the corrupted ids, one per id, in order; specification of `WriteFallbackRows`. |
| Submission.SubmissionLines | src/predict.py:99-121 | Definition of the whole file, without batches; specification of `Predict`, with properties in `SubmissionLayout` and `SubmissionReadsBack`. |
| Submission.Top3 | src/predict.py:79-83 | The `top_3` prediction of an image meets the top-k specification for k = 3 over its logits, one logit per class as the classifier gives it. |
| Submission.RowRoundTrip | src/predict.py:116-118 | A prediction row reads back as its id and classes, even when the id holds commas. |
| Submission.FallbackRowIsRow | src/predict.py:120-121 | The corrupted-file row is the row of classes 93, 83, 2 and reads back as them. |
| Submission.WriteBatch | src/predict.py:113-118 | One loop iteration appends, in batch order, the row of each image: its id and its top 3. |
| Submission.WriteBatches | src/predict.py:109-118 | Pulling `num_batches` batches appends the rows of all their items, in order. |
| Submission.WriteFallbackRows | src/predict.py:120-121 | Appends one `id,93 83 2` row per corrupted id, in listing order. |
| Submission.InitDataGenerator | src/predict.py:57-73 | The batches are the ordered chunking of the items. There are `ceil(N / batch_size)` of them, and they concatenate back to the items. |
| Submission.Predict | src/predict.py:89-123 | The lines written are the header, the usable rows, then the fallback rows, whatever the batch size. |
| Submission.SubmissionLayout | src/predict.py:99-121 | One line per listed entry plus the header. Line 0 is `id,predicted`. Usable rows come next in listing order, each the id and top 3 of its image. Fallback rows follow, in listing order. |
| Submission.LayoutUsable | src/predict.py:99-118 | After the header, line 1 + k is the row of the k-th usable entry in listing order: its id and the top 3 of its image. |
| Submission.LayoutCorrupted | src/predict.py:120-121 | After the usable rows, the k-th line is the fallback row of the k-th unusable entry in listing order. |
| Submission.SubmissionReadsBack | src/predict.py:116-121 | Every row parses back. A usable entry gives its id and a top 3 of its logits. A corrupted entry gives its id and the classes 93, 83, 2. |
| Submission.OneUsableTwoCorrupted | src/predict.py:99-121 | One usable item and two corrupted ids give four lines: the header, the item's row, then the two fallback rows. |
| Submission.TriageOneGoodTwoBad | src/predict.py:47-53 | A usable entry followed by two unusable ones gives one path and id, then the two corrupted ids in order. |
| Submission.ThreeFileTriage | src/predict.py:43-54 | An example listing: a valid `a.jpg`, a `b.jpg` of no known format and an empty `c.png` triage to path `data/a.jpg` with id `a`, and corrupted ids `b`, `c`. |
| Submission.ThreeFileDirectory | src/predict.py:43-121 | That example directory gives the header, the row of `a`, then the fallback rows of `b` and `c`. |

## Left out

- Flags and the global `FLAGS` object. The data directory, batch size and
  class count are parameters. A batch size below 1 is excluded by
  precondition. In the script, a batch size of 0 fails at the division
  that computes `num_batches`.
- Filesystem I/O: listing the directory, reading file sizes, opening,
  writing and closing the submission file, and the counter in the file
  name. The listing is an input sequence of entries. The file is the
  returned sequence of lines.
- Lines are modelled without their trailing newline. File names holding a
  newline would split a row in the real file; the model does not show
  this.
- `imghdr.what` is not modelled. Its result is the entry's `fmt` field,
  None when no format matches.
- The tf.data pipeline: tensor conversion, the parallel `map`, `prefetch`
  and the reinitializable iterator. Only the ordered chunking they deliver
  is modelled. The parallel map keeps order, so the order is the same.
- Image decoding (`_parse_function_test`) and the network (`MyModel`) are
  outside this model, as are float logits. They are replaced by the
  integer score function `score(path, c)`, which does not depend on the
  other images of the batch (inference mode).
- Top-k ties are broken by the lower class index, following the behaviour
  documented for `tf.nn.top_k`.
- Submission.Top3: requires at least 3 classes, since `top_k` with k = 3
  fails on fewer.
- The unused `classes` argmax, the session, the checkpoint restore, the
  progress bars and the log output are not modelled.
- Batching.NumBatches: assumes the script runs under Python 3, where
  `len(img_paths) / FLAGS.batch_size` is a true division. The ceiling of
  that float is exact only below 2^53 items; the model uses exact integer
  ceiling division. Under Python 2 the division floors, so `np.ceil` gives
  floor(N / batch_size), and the rows of a last, partial batch would never
  be written. The model does not cover that case.
- Validator.JoinPath: models the POSIX rules of `os.path.join` for two
  components only.
- Text.Join, Submission.Row, Submission.ParseRow: the id is written as
  decoded UTF-8 text. Characters are not re-encoded as bytes.
- Predict, ListFiles: the contracts describe only runs in which the
  collaborators outside the model succeed. In the model, `score` and `fmt`
  are total, so `Predict` always returns the whole file. In the script, an
  image that fails to decode makes `sess.run(get_next)` raise, and the
  file then holds only the header and the rows of earlier batches. An
  entry that is a subdirectory has a non-zero size, so `imghdr.what` opens
  it, raises, and `list_files` aborts. Neither abort is modelled.
