# tf_face training utilities and Inception-ResNet-v2 shapes, in Dafny

This project models the deterministic logic of a TensorFlow face-recognition
training code base.

- **Learning-rate schedule** (`get_learning_rate_from_file`). A schedule file
  has `epoch:rate` lines. The rate for an epoch is the rate of the *last* line,
  in file order, whose epoch is at most the query epoch. It is 0.1 when no such
  line exists. A malformed line raises `ValueError` or `IndexError`.
- **Dataset manifest** (`get_datasets`). A manifest has `path label` lines. The
  result is the joined image paths, the offset labels in line order, and the
  number of distinct labels.
- **Optimizer choice** inside `get_train_op` and `get_fusion_train_op`. Five
  names are accepted, each with fixed hyperparameters. Any other name raises
  `ValueError`.
- **Tensor shapes through the modified Inception-ResNet-v2 graph**: the
  stem, `Mixed_5b`, `Mixed_6a`, `Mixed_7a`, the residual blocks `block35`,
  `block17` and `block8`, their repeats, and the pooling/bottleneck head.
  Every layer is an exact integer map on `(batch, height, width, channels)`.
  A layer the graph builder would reject yields `None`.

Files:

- `wrappers.dfy`: `Option` and `Result`.
- `py_text.dfy`: the Python built-ins the parsers use. These are `str.strip()`,
  `str.split(':')`, `str.split()`, `int()` on a string, and POSIX
  `os.path.join`, each with its specification lemmas.
- `train_utils.dfy`: the two parsers and the optimizer dispatch.
  `GetLearningRateFromFile` and `GetDatasets` are the loops of the source,
  written as methods. Each is proved equal to a functional specification, and
  the properties are proved about that specification.
- `inception_resnet_v2.dfy`: the shape model of the network.

File reading is replaced by a `seq<string>` of lines, with line terminators
already removed. Those terminators are whitespace, which `strip()` removes
anyway. Errors carry the index of the first failing line and the Python
exception kind.

The comments at models/inception_resnet_v2_modified.py:143 and 156 say
`17x17x1024` after `Mixed_6a`. The code concatenates 384 + 384 + 320 = 1088
channels there, and the model follows the code.

## Model

| member | source | states |
|---|---|---|
| PyText.IsSpace | train_utils.py:14 | the `str.isspace()` characters that `strip()` and `split()` skip: ASCII `\t`..`\r`, space and `\x1c`..`\x1f`, plus the Unicode spaces |
| PyText.Strip | train_utils.py:14 | `strip()` is `lstrip()` then `rstrip()`; the result is no longer than the input and neither starts nor ends with whitespace |
| PyText.StripLeftSpec | train_utils.py:14 | `lstrip()` removes exactly the leading whitespace: the result is a suffix, everything dropped is whitespace, and the result does not start with whitespace |
| PyText.StripRightSpec | train_utils.py:14 | `rstrip()` removes exactly the trailing whitespace: the result is a prefix, everything dropped is whitespace, and the result does not end with whitespace |
| PyText.StripSpec | train_utils.py:14 | `strip()` returns the infix between leading and trailing whitespace; it neither starts nor ends with whitespace |
| PyText.StripUnchanged | train_utils.py:14 | a string without whitespace at either end is its own `strip()` |
| PyText.Split | train_utils.py:14 | `split(sep)` cuts at every `sep` character and always gives at least one piece (`"".split(":") == [""]`) |
| PyText.SplitSpec | train_utils.py:14 | `split(sep)` gives pieces free of `sep` that rejoin with `sep` to the input |
| PyText.SplitJoin | train_utils.py:14 | splitting sep-free pieces joined by `sep` gives the pieces back (the inverse of `SplitSpec`) |
| PyText.SplitNoSep | train_utils.py:14 | a string without `sep` splits into itself alone |
| PyText.SplitAppend | train_utils.py:14 | a sep-free prefix followed by `sep` splits off as the first piece |
| PyText.Words | train_utils.py:179 | `split()` on whitespace; there are never more words than characters (what it computes is stated by `WordsSpec`, `WordsOfFirst`, `WordsSplitAtSpace` and `WordsUnspaced`) |
| PyText.WordEndSpec | train_utils.py:179 | the first word found by `split()` contains no whitespace |
| PyText.WordsSpec | train_utils.py:179 | `split()` yields only non-empty, whitespace-free words |
| PyText.WordsJoinSpaced | train_utils.py:179 | non-empty whitespace-free words joined by spaces split back into the same words |
| PyText.WordsOfFirst | train_utils.py:179 | a word followed by whitespace or nothing is the first word of `split()` |
| PyText.WordsSplitAtSpace | train_utils.py:179 | a whitespace character splits the text into two halves whose words are found independently; with `WordsOfFirst` and `Words([]) == []` this determines `split()` on every string |
| PyText.WordsUnspaced | train_utils.py:179 | `split()` loses only whitespace: its words put end to end are the text with every whitespace character removed |
| PyText.IsIntSpace | train_utils.py:15 | the whitespace `int()` skips: the `str.isspace()` characters except `\x1c`..`\x1f`, which `int()` rejects |
| PyText.IntStrip | train_utils.py:15 | the text `int()` reads, with its own whitespace removed at both ends |
| PyText.IntStripSpec | train_utils.py:15 | that text is the infix between the leading and trailing runs of `int()` whitespace and neither starts nor ends with it |
| PyText.IsDigitString | train_utils.py:15 | the digit part of a decimal literal: ASCII digits, with single underscores only between two digits |
| PyText.ParseInt | train_utils.py:15 | `int()` ignores surrounding `int()` whitespace and reads an optional sign and decimal digits; an empty or whitespace-only string raises ValueError (None) |
| PyText.ParseIntSpec | train_utils.py:15 | `int(s)` succeeds exactly when `s` without its `int()` whitespace is an optional sign and a decimal digit string |
| PyText.NatToStringDigits | train_utils.py:15 | the decimal rendering of a natural number is a digit string |
| PyText.DigitsValueOfNat | train_utils.py:181 | the digit string of a natural number reads back as that number |
| PyText.IntToStringRoundTrip | train_utils.py:181 | `int(str(n)) == n` for every integer |
| PyText.PathJoin | train_utils.py:180 | POSIX `os.path.join(a, b)`; the result always ends with `b` |
| PyText.PathJoinSpec | train_utils.py:180 | `os.path.join(a, b)` (POSIX) is `b` when `b` is absolute; otherwise it is `a`, at most one inserted `/`, then `b` |
| TrainUtils.ParseScheduleLine | train_utils.py:14-16 | one schedule line: `int()` of field 0 raises ValueError first, a missing field 1 raises IndexError; no other exception arises |
| TrainUtils.ScanSchedule | train_utils.py:13-18 | the loop from line `i` with the rate chosen so far; a failure names a line at or after `i` that does not parse |
| TrainUtils.ScheduleRate | train_utils.py:10-19 | `get_learning_rate_from_file` from the default 0.1; a failure names a line of the file that does not parse |
| TrainUtils.ParseScheduleLines | train_utils.py:13-16 | one parse result per schedule line |
| TrainUtils.GetLearningRateFromFile | train_utils.py:10-19 | the loop that reassigns the rate returns exactly the functional schedule rate (`ScheduleRate`) |
| TrainUtils.ScanScheduleSpec | train_utils.py:13-18 | the loop succeeds iff every remaining line parses; a failure names the first bad line and its error; with no qualifying line the rate is unchanged; otherwise it is the rate of the last qualifying line |
| TrainUtils.ScheduleRateLastMatch | train_utils.py:11-18 | over the whole file: success iff every line parses; failure at the first bad line; default 0.1 when no epoch is at most the query; otherwise the last qualifying line's rate (last match, not largest epoch) |
| TrainUtils.ScheduleLineFields | train_utils.py:14-16 | a line `e:rate[:more…]` whose first field `int()` reads as `e` (leading whitespace, sign and leading zeros allowed) parses to epoch `e` and the stripped second field; later fields and trailing whitespace are ignored |
| TrainUtils.ScheduleLineNeedsColon | train_utils.py:14-16 | a line without `:` is not skipped: it raises ValueError when the stripped line is not an integer (line 15), and IndexError when it is (no field 1, line 16) |
| TrainUtils.ScheduleLineBadEpoch | train_utils.py:14-15 | an epoch field that `int()` rejects once `strip()` has removed its leading whitespace raises ValueError, whatever follows the first `:`, including an empty or whitespace-only field |
| TrainUtils.ScheduleLineSeparatorEpoch | train_utils.py:14-15 | `"5\x1c:0.1"` raises ValueError: `strip()` keeps the inner `\x1c`, and `int()` does not skip it |
| TrainUtils.ScheduleEntryLine | train_utils.py:14-16 | the line `str(e):rate` reads back as the entry `(e, rate)` |
| TrainUtils.WriteSchedule | train_utils.py:13 | a written schedule has one line per entry |
| TrainUtils.Parsed | train_utils.py:13 | the expected parse has one result per entry |
| TrainUtils.WriteScheduleReadsBack | train_utils.py:13-16 | writing entries as `e:rate` lines and parsing them gives the entries back |
| TrainUtils.WriteScheduleRate | train_utils.py:10-19 | the rate of a written schedule is the scan over its entries from the default |
| TrainUtils.SortedScanSteps | train_utils.py:17-18 | on epoch-sorted entries the scan returns the rate of the last entry whose epoch is at most the query, or the default |
| TrainUtils.SortedScheduleSteps | train_utils.py:10-19 | the same for a written, epoch-sorted schedule file: a step function of the epoch |
| TrainUtils.LastLineWins | train_utils.py:13-18 | if the last line qualifies, its rate wins whatever came before |
| TrainUtils.ParseManifestLine | train_utils.py:179-181 | one manifest line: a missing word raises IndexError and a non-integer label ValueError; no other exception arises |
| TrainUtils.ParseManifest | train_utils.py:177-184 | the appends from line `i` on; on success there are as many paths as labels, one per remaining line; a failure names a line that does not parse |
| TrainUtils.Datasets | train_utils.py:166-185 | `get_datasets`: on success one path and one label per line; a failure names a line of the manifest that does not parse; `offset` is an explicit parameter, and `get_datasets`' default `offset=0` is the call with 0 |
| TrainUtils.ParseManifestLines | train_utils.py:178-181 | one parse result per manifest line |
| TrainUtils.ParseManifestLinesAt | train_utils.py:178-181 | result `j` is the parse of line `j` |
| TrainUtils.GetDatasets | train_utils.py:166-185 | the appending loop returns exactly the functional manifest reading (`Datasets`) |
| TrainUtils.LabelSetAppend | train_utils.py:182 | recording a label adds it to the key set of `mdict`; a new label increases the count by one |
| TrainUtils.ParseManifestSpec | train_utils.py:178-184 | the accumulation succeeds iff every remaining line parses; a failure names the first bad line; on success the paths and labels, in line order, are exactly the parsed pairs |
| TrainUtils.ManifestLineSpec | train_utils.py:179-181 | a line parses iff it has at least two words and an integer second word, and then gives `join(data_dir, word 0)` and `offset + int(word 1)` |
| TrainUtils.ManifestLineTooShort | train_utils.py:180 | a line with fewer than two words raises IndexError |
| TrainUtils.ManifestLineBadLabel | train_utils.py:181 | a non-integer second word raises ValueError |
| TrainUtils.ManifestLineParsed | train_utils.py:179-181 | with two words and an integer label, the line gives the joined path and the offset label |
| TrainUtils.ManifestLineRoundTrip | train_utils.py:179-181 | `path label extra…` reads back as the joined path and the offset label; words after the second are ignored |
| TrainUtils.DatasetsSucceedsIff | train_utils.py:177-185 | reading succeeds iff every line is well formed |
| TrainUtils.DatasetsFirstError | train_utils.py:177-185 | a failure names the first ill-formed line; every line before it is well formed |
| TrainUtils.DatasetsLineByLine | train_utils.py:178-185 | on success: one path and one label per line, in order; `paths[j]` is the joined word 0 of line `j`; `labels[j]` is `offset + int(word 1)`; the count is the number of distinct labels |
| TrainUtils.LabelSetBound | train_utils.py:182-185 | there are at most as many distinct labels as labels |
| TrainUtils.LabelSetShift | train_utils.py:181-182 | shifting every label by the same offset keeps the number of distinct labels |
| TrainUtils.NumClassesBound | train_utils.py:185 | the class count is at most the number of lines |
| TrainUtils.NumClassesOffsetFree | train_utils.py:181-185 | the offset changes neither success, nor the paths, nor the class count; it shifts every label by the offset difference |
| TrainUtils.ManifestLineReadsBack | train_utils.py:179-181 | the line `path label` reads back as the joined path and the offset label |
| TrainUtils.WriteManifest | train_utils.py:178 | a written manifest has one line per image |
| TrainUtils.ReadBack | train_utils.py:183-184 | the expected reading has one pair per image |
| TrainUtils.WriteManifestReadsBack | train_utils.py:166-185 | a manifest written from images reads back to their joined paths and offset labels, in order |
| TrainUtils.DatasetsOfParsedLines | train_utils.py:177-185 | when every line parses to its expected pair, the result lists those pairs in order |
| TrainUtils.OptimizerName | train_utils.py:101-110 | every kind's name is accepted and selects that kind |
| TrainUtils.ParseOptimizer | train_utils.py:101-112 | the if/elif chain accepts exactly ADAGRAD, ADADELTA, ADAM, RMSPROP and MOM |
| TrainUtils.OptimizerNameBijective | train_utils.py:101-110 | names and kinds correspond one to one |
| TrainUtils.NewOptimizer | train_utils.py:102-110 | the constructed optimizer has the requested kind and rate, ρ 0.9 / ε 1e-6 (Adadelta), β 0.9 / 0.999 / ε 0.1 (Adam), decay 0.9 / momentum 0.9 / ε 1.0 (RMSProp), momentum 0.9 with Nesterov (MOM) |
| TrainUtils.GetTrainOp | train_utils.py:92-130 | an unknown name raises ValueError; otherwise one update over `var_list` by the named optimizer at `lr`, with the moving average of `var_list` |
| TrainUtils.GetFusionTrainOp | train_utils.py:47-89 | an unknown name raises ValueError; otherwise two optimizers of the same named kind at `lr_base` over `var_list1` and at `lr_fusion` over `var_list2`, averaging all trainable variables; with histogram logging it raises NameError |
| TrainUtils.GetFusionTrainOpCorrected | train_utils.py:47-89 | the fusion builder with the histogram loop reading `grads1` and `grads2`: fails only on an unknown name |
| TrainUtils.FusionHistogramsNameError | train_utils.py:78-83 | as written, every accepted name fails with NameError when logging is on, where the corrected builder succeeds; with logging off the two agree |
| TrainUtils.FusionIsTwoSingleUpdates | train_utils.py:56-76 | the fusion step's updates are exactly those of two single steps built from the same name |
| InceptionResNetV2.WindowOut | models/inception_resnet_v2_modified.py:107-123 | a window length is defined iff kernel and stride are positive and, under VALID padding, the kernel fits; it is then the window count (VALID `(n-k)/s+1`, SAME `ceil(n/s)`) |
| InceptionResNetV2.WindowCountUnique | models/inception_resnet_v2_modified.py:107-123 | the window count is unique for given length, kernel, stride and padding |
| InceptionResNetV2.SameStrideOne | models/inception_resnet_v2_modified.py:107-109 | a stride-1 SAME window keeps the length |
| InceptionResNetV2.Apply | models/inception_resnet_v2_modified.py:107-123 | a conv or pool is defined iff both spatial windows are; the batch is kept, each side is the window count, a conv sets the channels, a pool keeps them |
| InceptionResNetV2.ApplyKeepsGrid | models/inception_resnet_v2_modified.py:107-109 | a stride-1 SAME layer keeps batch, height and width |
| InceptionResNetV2.ApplyValid | models/inception_resnet_v2_modified.py:111-123 | a VALID layer maps each side `n >= k` to `(n-k)/s+1` and rejects a shorter side |
| InceptionResNetV2.Chain | models/inception_resnet_v2_modified.py:21-27 | the layers of a branch applied in order by rebinding `net`; the batch is carried through |
| InceptionResNetV2.ChainChannelsLastConv | models/inception_resnet_v2_modified.py:19-27 | a branch ending in a conv has that conv's filter count |
| InceptionResNetV2.TraceChain | models/inception_resnet_v2_modified.py:110-123 | the shape trace exists iff the chain does, has one shape per layer and ends with the chain's result |
| InceptionResNetV2.ChainKeepsGrid | models/inception_resnet_v2_modified.py:19-27 | a chain of stride-1 SAME layers keeps the grid and ends with its last conv's channels |
| InceptionResNetV2.ChainReduces | models/inception_resnet_v2_modified.py:145-153 | SAME layers then one 3x3 stride-2 VALID layer: defined iff both sides are at least 3, each side becoming `(n-3)/2+1` |
| InceptionResNetV2.Concat | models/inception_resnet_v2_modified.py:29 | `tf.concat(axis=3)` is defined iff there is a part and all parts share batch, height and width; the channels add up |
| InceptionResNetV2.Add | models/inception_resnet_v2_modified.py:37 | `x += scale * up` is defined iff the two shapes are equal, and keeps that shape |
| InceptionResNetV2.Mixed | models/inception_resnet_v2_modified.py:29 | the branches concatenated on axis 3; it needs at least one branch and keeps the batch |
| InceptionResNetV2.Branches | models/inception_resnet_v2_modified.py:19-27 | one output per branch |
| InceptionResNetV2.MixedUniform | models/inception_resnet_v2_modified.py:19-29 | branches reaching one common grid concatenate to that grid with their total width |
| InceptionResNetV2.MixedFirstFails | models/inception_resnet_v2_modified.py:19-29 | a failing branch makes the module fail |
| InceptionResNetV2.MixedKeepsGrid | models/inception_resnet_v2_modified.py:19-29 | stride-1 SAME branches concatenate on the input grid |
| InceptionResNetV2.Residual | models/inception_resnet_v2_modified.py:29-37 | concatenation, the 1x1 projection to `x.get_shape()[3]` and `x += scale * up`: whenever it is defined, the result has exactly the input shape |
| InceptionResNetV2.ResidualKeepsShape | models/inception_resnet_v2_modified.py:16-40 | with grid-keeping branches, concatenation, the 1x1 projection to `x.get_shape()[3]` and the sum give back the input shape |
| InceptionResNetV2.MixedReduces | models/inception_resnet_v2_modified.py:144-154 | branches ending in a 3x3 stride-2 VALID layer: defined iff both sides are at least 3; each side halves to `(n-3)/2+1`; widths add |
| InceptionResNetV2.KindKeepsGrid | models/inception_resnet_v2_modified.py:16-84 | every conv of the three block kinds is stride-1 SAME |
| InceptionResNetV2.Block | models/inception_resnet_v2_modified.py:16-84 | `block35`, `block17` and `block8` map every input shape to itself |
| InceptionResNetV2.Block35Branches | models/inception_resnet_v2_modified.py:20-27 | the `block35` branches: 1x1/32; 1x1/32, 3x3/32; 1x1/32, 3x3/48, 3x3/64, all stride 1 SAME |
| InceptionResNetV2.Block17Branches | models/inception_resnet_v2_modified.py:49-53 | the `block17` branches: 1x1/192; 1x1/128, 1x7/160, 7x1/192 |
| InceptionResNetV2.Block8Branches | models/inception_resnet_v2_modified.py:71-75 | the `block8` branches: 1x1/192; 1x1/192, 1x3/224, 3x1/256 |
| InceptionResNetV2.Block35Width | models/inception_resnet_v2_modified.py:20-29 | the `block35` concatenation has 32 + 32 + 64 = 128 channels whatever the input |
| InceptionResNetV2.Block17Width | models/inception_resnet_v2_modified.py:49-54 | the `block17` concatenation has 192 + 192 = 384 channels |
| InceptionResNetV2.Block8Width | models/inception_resnet_v2_modified.py:71-76 | the `block8` concatenation has 192 + 256 = 448 channels |
| InceptionResNetV2.BlockMixedWidth | models/inception_resnet_v2_modified.py:29-76 | each block's concatenation keeps the input grid and has the block's fixed width |
| InceptionResNetV2.Repeat | models/inception_resnet_v2_modified.py:141-178 | `slim.repeat` of a block, any number of times, keeps the shape |
| InceptionResNetV2.StemLayers | models/inception_resnet_v2_modified.py:111-123 | the seven stem layers with their kernels, strides, paddings and filter counts |
| InceptionResNetV2.Stem | models/inception_resnet_v2_modified.py:110-123 | the stem is defined iff both sides are at least 27, giving `(n-19)/8` a side and 192 channels |
| InceptionResNetV2.StemShape | models/inception_resnet_v2_modified.py:110-123 | the seven-layer chain behaves as `Stem` states |
| InceptionResNetV2.StemFrom | models/inception_resnet_v2_modified.py:110-123 | the closed form of the stem from each of its layers on |
| InceptionResNetV2.StemTrace299 | models/inception_resnet_v2_modified.py:110-123 | on 299x299x3 the seven layers give 149x149x32, 147x147x32, 147x147x64, 73x73x64, 73x73x80, 71x71x192, 35x35x192 |
| InceptionResNetV2.Mixed5bBranches | models/inception_resnet_v2_modified.py:127-137 | the four `Mixed_5b` branches, the last an average pool then a 1x1/64 conv |
| InceptionResNetV2.Mixed6aBranches | models/inception_resnet_v2_modified.py:146-153 | the three `Mixed_6a` branches, each ending in a 3x3 stride-2 VALID layer |
| InceptionResNetV2.Mixed7aBranches | models/inception_resnet_v2_modified.py:162-174 | the four `Mixed_7a` branches, each ending in a 3x3 stride-2 VALID layer |
| InceptionResNetV2.Mixed5bWidth | models/inception_resnet_v2_modified.py:125-138 | the `Mixed_5b` widths sum to 96 + 64 + 96 + 64 = 320 |
| InceptionResNetV2.Mixed6aWidth | models/inception_resnet_v2_modified.py:144-154 | the `Mixed_6a` widths sum to 384 + 384 + the input's channels |
| InceptionResNetV2.Mixed7aWidth | models/inception_resnet_v2_modified.py:160-175 | the `Mixed_7a` widths sum to 384 + 288 + 320 + the input's channels |
| InceptionResNetV2.Mixed5b | models/inception_resnet_v2_modified.py:125-138 | `Mixed_5b` keeps the grid and always outputs 320 channels |
| InceptionResNetV2.Mixed6a | models/inception_resnet_v2_modified.py:144-154 | `Mixed_6a` is defined iff both sides are at least 3; it halves them and outputs 768 + c channels |
| InceptionResNetV2.Mixed7a | models/inception_resnet_v2_modified.py:160-175 | `Mixed_7a` is defined iff both sides are at least 3; it halves them and outputs 992 + c channels |
| InceptionResNetV2.Flatten | models/inception_resnet_v2_modified.py:189 | `slim.flatten` keeps the batch; on a 1x1 grid the features are the channels |
| InceptionResNetV2.FullyConnected | models/inception_resnet_v2_modified.py:191-195 | `slim.fully_connected` keeps the batch and has `bottleneck_size` features |
| InceptionResNetV2.Head | models/inception_resnet_v2_modified.py:181-195 | the head is defined iff the grid is non-empty and gives `(batch, bottleneck_size)` |
| InceptionResNetV2.HeadPoolsToChannels | models/inception_resnet_v2_modified.py:187-188 | the whole-grid VALID average pool leaves 1x1, so flattening gives exactly the channels |
| InceptionResNetV2.Trunk | models/inception_resnet_v2_modified.py:125-179 | `Mixed_5b` to the last `block8` is defined iff both sides are at least 7; it halves each side twice and outputs 2080 channels |
| InceptionResNetV2.Network | models/inception_resnet_v2_modified.py:87-196 | `inception_resnet_v2` is defined iff the input is at least 75x75, and then outputs `(batch, bottleneck_size)` |
| InceptionResNetV2.NetworkSide | models/inception_resnet_v2_modified.py:110-175 | a stem output side reaches the trunk's minimum of 7 exactly from 75 input cells |
| InceptionResNetV2.Reference299 | models/inception_resnet_v2_modified.py:87-196 | on 299x299x3: 35x35x320 after `Mixed_5b`, 17x17x1088 after `Mixed_6a`, 8x8x2080 after `Mixed_7a`, and `(batch, 128)` at the default bottleneck |

## Left out

- File opening and line iteration (`open`). A file is a `seq<string>` of lines without terminators.
- `float()` on the rate token. The rate stays the stripped token that `float()` would read, and float syntax errors are not modelled.
- Python 3 string semantics are modelled. `strip()` and `split()` skip the `str.isspace()` characters, which include `\x1c`–`\x1f` and the Unicode spaces. `int()` skips only ASCII `\t`..`\r` and space, plus the non-ASCII Unicode spaces, and accepts `_` between digits. Python 2 byte strings differ on such input.
- `int()` on non-ASCII Unicode digits. Only ASCII digits, an optional sign and single underscores between digits are modelled.
- `os.path.join`. Only the POSIX rule is modelled, with its two arguments.
- NumPy arrays. The returned arrays are sequences, and the dictionary `mdict` is the set of its keys.
- Optimizer update arithmetic, gradient computation, `ExponentialMovingAverage`, `tf.group` and control dependencies. These are library numerics: a training step records only which optimizer updates which variables and what is averaged.
- Histogram summaries. Logging them has no modelled effect, apart from the NameError the fusion builder raises (see Findings).
- `triplet_loss` and `center_loss`. They are float tensor arithmetic outside the modelled core.
- Tensor values: weights, batch normalisation, dropout, ReLU, the residual `scale` and the activation switch of the last `block8`. These change values, not shapes, so they are not parameters of `InceptionResNetV2.Block`.
- InceptionResNetV2.Block: its contract is about shapes only; the value `x + scale * up` and the optional activation are not modelled.
- `inference`. It only wraps `inception_resnet_v2` in argument scopes for batch normalisation and initializers, which do not affect shapes.
- Variable scopes, `reuse`, `is_training`, `keep_prob` and `end_points`, which is always `None` here.
- Broadcasting in `x += scale * up`. Its operands always have equal shapes, as `InceptionResNetV2.ResidualKeepsShape` proves, so broadcasting never occurs.
- An unknown (`None`) batch dimension. The batch is a natural number, carried through unchanged.

## Findings

| source | as written | input that shows it | evidently intended | confidence | as-written member | corrected member |
|---|---|---|---|---|---|---|
| train_utils.py:81 | the histogram loop of `get_fusion_train_op` iterates over `grads`, which is never defined in that function (only `grads1` and `grads2` are) | `log_histograms=True` with any accepted optimizer name, e.g. `"ADAM"`, raises NameError | iterate over the gradients actually computed, `grads1 + grads2`, so logging never fails | high, from reading; not executed | TrainUtils.GetFusionTrainOp, TrainUtils.FusionHistogramsNameError | TrainUtils.GetFusionTrainOpCorrected, TrainUtils.FusionIsTwoSingleUpdates |
