# ELETTRA 2.0 emittance scan: a Dafny model

This project models the part of the ELETTRA 2.0 lattice toolbox that holds
logic of its own, the file `lattice/elettra_toolbox.py`, together with the
notebook checkpoint copy of its parser. It has three parts:

- **The emittance parser** (`get_emittances_from_madx_output`). It reads the
  text MAD-X printed to its output file and keeps the lines that start with
  `" Emittances [pi micro m]"`. It takes the last of them, splits it into shell
  words and returns words 4, 5 and 6 as the x, y and z emittances. It divides
  them by 1e6 when asked for metres.
- **The closure check** (`check_closed_machine`). After a SURVEY, the ring is
  closed when the start and end markers agree in x and in z to strictly less
  than a tolerance (1 mm by default). x is checked first.
- **The scan driver** (`scan_param_for_emittance`). For each sample value it
  writes the swept MAD-X global, then runs TWISS, the closure check, EMIT twice
  and the parser. It records the three emittances, or NaN when TWISS failed or
  the machine is open. A parse error ends the sweep.

Modules:

- `Wrappers` holds `Option` (`None` is NaN in a column) and `Result` (an
  exception).
- `PyText` holds what the parser uses from Python's text handling: the
  newline translation of `Path.read_text()`, `str.split`, `str.startswith`, the filtering comprehension and `shlex.split`.
- `MadxOutput` is the parser. `MachineClosure` is the closure check.
- `EmittanceScan` holds the session: a class `Session` with the MAD-X globals
  (`map<string, real>`), the text of the output file and the commands run so
  far. It also holds the driver, which is proved against the specification
  functions `RunPoint` (one point) and `Scan` (the sweep).
- `ToolboxCheckpoint` is the checkpoint copy of the parser.

MAD-X is an oracle, `Engine`. It says whether TWISS converges, what SURVEY
finds at the start and end markers, and what text each command prints. Every
answer may depend on the globals and on how many commands the session has run
already. The session prints everything to the output file the parser reads
(the launch scripts open MAD-X with `stdout=` that file), so the file only
grows between points. That is why taking the *last* emittance line matters.

Three facts about the source shape the model:

- The parser has no error of its own. `[-1]` on an empty list of matching
  lines and `[4]`..`[6]` on a short line both raise `IndexError`. The model
  names the two cases `NoEmittanceLine` and `TooFewTokens`.
- The closure check fails when a distance equals the tolerance, because the
  asserts use a strict `<`.
- The driver catches only `TwissFailed` and `AssertionError`. Any other
  failure, a parse error included, propagates and ends the sweep.

The file is read with `Path.read_text()`, which translates `"\r\n"` and a lone
`"\r"` to `"\n"` before the split. The model applies that translation
(`PyText.ReadText`) to the text MAD-X printed.

## Model

| member | source | states |
|---|---|---|
| `PyText.ReadText` | lattice/elettra_toolbox.py:42 | the universal-newline translation of `read_text()` leaves no carriage return in the text |
| `PyText.ReadTextAppend` | lattice/elettra_toolbox.py:42 | text that does not end in a carriage return translates independently of what follows it |
| `PyText.ReadTextPlain` | lattice/elettra_toolbox.py:42 | text without a carriage return is read unchanged |
| `PyText.ReadTextEndsLine` | lattice/elettra_toolbox.py:42 | text ending in a newline or a carriage return still ends in a newline once read |
| `PyText.StartsWith` | lattice/elettra_toolbox.py:43 | `line.startswith(prefix)`: the prefix is no longer than the line and equals its first characters |
| `PyText.Split` | lattice/elettra_toolbox.py:42 | `split("\n")` always yields at least one piece and no piece contains the separator |
| `PyText.JoinSplit` | lattice/elettra_toolbox.py:42 | joining the pieces of a split with the separator gives back the text |
| `PyText.SplitJoin` | lattice/elettra_toolbox.py:42 | splitting the join of separator-free pieces gives back the pieces (the other direction of the round trip) |
| `PyText.SplitAppend` | lattice/elettra_toolbox.py:42 | after text that ends with a newline, the lines of the longer text are its complete lines followed by the lines of the rest |
| `PyText.Filter` | lattice/elettra_toolbox.py:43 | the comprehension keeps exactly the lines that start with the prefix: every kept line starts with it and comes from the input, and every such input line is kept |
| `PyText.FilterAppend` | lattice/elettra_toolbox.py:43 | filtering a concatenation is the concatenation of the filtered parts |
| `PyText.FilterLast` | lattice/elettra_toolbox.py:43 | `[-1]` of the filtered list is the matching line with the highest index |
| `PyText.Tokens` | lattice/elettra_toolbox.py:45 | every shell word is non-empty and blank-free, and there are none exactly when the text is all blanks |
| `PyText.TokensAppend` | lattice/elettra_toolbox.py:45 | text followed by blank-led text tokenises to the tokens of the first then those of the second |
| `PyText.BlanksDropped` | lattice/elettra_toolbox.py:45 | blanks in front of the text change nothing: a run of blanks separates like a single one |
| `PyText.TokensPadded` | lattice/elettra_toolbox.py:45 | words laid out between any runs of blanks (non-empty between two words) tokenise back to exactly those words, in order |
| `PyText.PaddedTokens` | lattice/elettra_toolbox.py:45 | every text is its tokens laid out between its blank runs, so the tokens are its maximal blank-free runs in order (the converse of `TokensPadded`) |
| `PyText.TokensUnwords` | lattice/elettra_toolbox.py:45 | words written out with separating spaces tokenise back to the same words |
| `MadxOutput.ScalingFactor` | lattice/elettra_toolbox.py:40 | the divisor is positive and is 1 exactly when `to_meters` is false |
| `MadxOutput.OutputLines` | lattice/elettra_toolbox.py:42 | `read_text().split("\n")`: the lines of the file after the newline translation; `ReadText`, `Split` and `JoinSplit` state what they are |
| `MadxOutput.EmitLines` | lattice/elettra_toolbox.py:42-43 | every kept line starts with `" Emittances [pi micro m]"` and is a line of the file, and every such line of the file is kept |
| `MadxOutput.ReadEmitLine` | lattice/elettra_toolbox.py:45-49 | a read line gives three shell words of that line, all divided by the same given factor; a failure is `TooFewTokens` with a count below 7 |
| `MadxOutput.GetEmittancesFromMadxOutput` | lattice/elettra_toolbox.py:30-50 | fails with `NoEmittanceLine` exactly when no line starts with `" Emittances [pi micro m]"` (no default value); a `TooFewTokens` failure means the last matching line has fewer than 7 tokens |
| `MadxOutput.ParserReadsLastEmitLine` | lattice/elettra_toolbox.py:42-43 | the result is read from the matching line with the highest index, whatever the earlier lines hold |
| `MadxOutput.ParserTokensOfLastLine` | lattice/elettra_toolbox.py:42-49 | with j the last line of the file that starts with the prefix, the parser fails exactly when line j has fewer than 7 tokens, then with `TooFewTokens` of its token count, and otherwise returns its tokens 4, 5 and 6 divided by the factor |
| `MadxOutput.SplitAfterCompleteLines` | lattice/elettra_toolbox.py:42-43 | the emittance lines of earlier output ending in a newline followed by later output are those of the earlier part followed by those of the later part |
| `MadxOutput.EarlierOutputIgnored` | lattice/elettra_toolbox.py:43 | once the later output holds an emittance line, nothing earlier in the file changes the result |
| `MadxOutput.LaterOutputWithoutEmitLine` | lattice/elettra_toolbox.py:43 | later output without an emittance line leaves the result that of the earlier output |
| `MadxOutput.LeadingSpaceRequired` | lattice/elettra_toolbox.py:43 | if no line of the file begins with a space, the parser fails with `NoEmittanceLine`: the prefix's leading space is part of the match |
| `MadxOutput.PrefixTokens` | lattice/elettra_toolbox.py:43-45 | the prefix itself is exactly four shell words |
| `MadxOutput.ReadLineOfTokens` | lattice/elettra_toolbox.py:45-49 | a line whose tokens are the four prefix words and some fields reads the first three fields as x, y, z, or fails with the token count |
| `MadxOutput.ReadFieldsAfterPrefix` | lattice/elettra_toolbox.py:45-49 | on a line made of the prefix and blank-led fields, x, y and z are the first three fields; with fewer than three fields it is an error carrying the token count |
| `MadxOutput.ScalingOnlyWhenToMeters` | lattice/elettra_toolbox.py:40-49 | comparing both values of `to_meters` on the same file: the divisor is 1e6 with it and 1 without, and the flag changes neither success nor the tokens read |
| `MadxOutput.ParseEmitReport` | lattice/elettra_toolbox.py:30-50 | a file whose last emittance line is the prefix followed by fields in columns padded by any runs of blanks parses back to the first three fields, scaled as asked |
| `MachineClosure.Abs` | lattice/elettra_toolbox.py:72-73 | `abs` is non-negative and is the value or its negation |
| `MachineClosure.CheckClosure` | lattice/elettra_toolbox.py:72-77 | succeeds exactly when both distances are strictly below `tol`, then returning them non-negative; fails with the x error exactly when x is out of tolerance, and with the z error exactly when x is within and z is not |
| `MachineClosure.ToleranceIsExclusive` | lattice/elettra_toolbox.py:74-75 | for every survey, a distance equal to the tolerance fails |
| `MachineClosure.CheckClosureSymmetric` | lattice/elettra_toolbox.py:72-73 | swapping the start and end markers does not change the verdict |
| `MachineClosure.CheckClosureMonotone` | lattice/elettra_toolbox.py:74-75 | a machine closed at one tolerance is closed, with the same distances, at every larger one |
| `MachineClosure.NonPositiveToleranceRejects` | lattice/elettra_toolbox.py:74 | no tolerance at or below zero accepts any survey |
| `EmittanceScan.Column` | lattice/elettra_toolbox.py:128-144 | each column has one entry per row: that row's component, or NaN where the row is NaN |
| `EmittanceScan.ColumnsSnoc` | lattice/elettra_toolbox.py:128-140 | recording one more row appends its components, or NaN, to the end of each of the three columns |
| `EmittanceScan.ResultsTable` | lattice/elettra_toolbox.py:115-116 | the table is indexed by the sample values and named after the variable; each column has one entry per row, the row's component where it has one and NaN in all three columns where it has none |
| `EmittanceScan.RunPoint` | lattice/elettra_toolbox.py:122-140 | the `try` block for one point; what it does in each case is stated by `FailedPointParsed`, `CaughtFailureContinues`, `ScanFailurePolicy`, `PointReadsOwnEmitReport` and `PointWithoutReportReadsEarlier` |
| `EmittanceScan.FailedPointParsed` | lattice/elettra_toolbox.py:122-140 | only the parser raises out of the `try`: a point that fails converged in TWISS, passed the closure check, ran EMIT twice, and the parse of the file failed with that error |
| `EmittanceScan.Step` | lattice/elettra_toolbox.py:119-140 | one pass writes the swept global, only adds to the output and the commands, and appends exactly one row unless it stops the sweep, in which case the rows stay as they were |
| `EmittanceScan.Scan` | lattice/elettra_toolbox.py:117-145 | the sweep as a function of the sample values; its properties are the `Scan…` lemmas below |
| `EmittanceScan.PointAt` | lattice/elettra_toolbox.py:119-140 | pass i of the loop: the `try` block run under the starting globals with the swept one set to `scan_space[i]`, after the output and commands of the passes before it; `ScanNextPoint` and `ScanRowAt` state how it enters the sweep |
| `EmittanceScan.Session.SetGlobal` | lattice/elettra_toolbox.py:121 | writes the named global and nothing else |
| `EmittanceScan.Session.Twiss` | lattice/elettra_toolbox.py:123 | reports the engine's convergence, appends TWISS's text to the output file and TWISS to the commands |
| `EmittanceScan.Session.Survey` | lattice/elettra_toolbox.py:70-73 | returns the survey's start and end coordinates and appends SURVEY's text and command |
| `EmittanceScan.Session.Emit` | lattice/elettra_toolbox.py:125-126 | appends EMIT's text to the output file and EMIT to the commands |
| `EmittanceScan.Session.CheckClosedMachine` | lattice/elettra_toolbox.py:53-77 | runs one SURVEY and returns the closure check on its coordinates |
| `EmittanceScan.Session.AttemptPoint` | lattice/elettra_toolbox.py:122-140 | the `try` block for one point has exactly the outcome, commands and printed text of `RunPoint` |
| `EmittanceScan.Session.ScanParamForEmittance` | lattice/elettra_toolbox.py:98-145 | leaves the session in `Scan`'s final state and returns `Scan`'s parse error, or the table of `Scan`'s rows indexed by the sample values |
| `EmittanceScan.ScanStep` | lattice/elettra_toolbox.py:119-140 | the sweep up to point i is one more pass after the sweep before it, unless that one had stopped |
| `EmittanceScan.ScanAdvance` | lattice/elettra_toolbox.py:119-140 | from a state the sweep reached without failing, one pass runs the point under that state's globals with the swept one set, and appends its row or records its error |
| `EmittanceScan.ScanExtends` | lattice/elettra_toolbox.py:119-140 | the rows, output and commands of a shorter sweep are prefixes of a longer one's, and a stopped sweep stays stopped |
| `EmittanceScan.ScanRowCount` | lattice/elettra_toolbox.py:117-144 | a completed sweep has exactly one row per sample value; a stopped one has fewer |
| `EmittanceScan.ScanGlobals` | lattice/elettra_toolbox.py:119-121 | afterwards the swept global holds the last sample attempted, even one that failed; the initial value is not written back and no other global changes |
| `EmittanceScan.PointGlobals` | lattice/elettra_toolbox.py:119-121 | each point runs with the swept global set to its own sample value and every other global as at the start |
| `EmittanceScan.ScanRowAt` | lattice/elettra_toolbox.py:119-140 | row i is the outcome of point i under `scan_space[i]`; all earlier points were recorded, and point i's commands follow theirs directly |
| `EmittanceScan.ScanNextPoint` | lattice/elettra_toolbox.py:119-140 | while no point has failed, one more pass sets the global to the next sample and appends that point's row, text and commands |
| `EmittanceScan.ScanStopsAt` | lattice/elettra_toolbox.py:122-140 | a stopped sweep stopped at a parse error at point j: the earlier rows stand, point j ran under `scan_space[j]` and nothing ran after it, and at point j TWISS converged, the machine was closed, EMIT ran twice and the parser failed with the sweep's error |
| `EmittanceScan.StoppedSweep` | lattice/elettra_toolbox.py:119-140 | a stopped sweep stopped at point j = its row count, after recording every earlier point, and its state is the one point j left |
| `EmittanceScan.CaughtFailureContinues` | lattice/elettra_toolbox.py:131-140 | when point i is reached and its TWISS fails or its machine is open, the sweep goes on past it with NaN appended as its row |
| `EmittanceScan.ScanFailurePolicy` | lattice/elettra_toolbox.py:122-140 | a recorded row is `None` (a caught failure) exactly when TWISS failed or the closure check failed; after a failed TWISS only TWISS ran, after an open machine only TWISS and SURVEY; otherwise EMIT ran twice and the row is what the parser read |
| `EmittanceScan.PointReadsOwnEmitReport` | lattice/elettra_toolbox.py:125-127 | when the first EMIT report ends its line and the second holds an emittance line, the point reads the second report and nothing older |
| `EmittanceScan.PointWithoutReportReadsEarlier` | lattice/elettra_toolbox.py:125-127 | when a point's commands print no emittance line, the point reads the last report already in the file |
| `EmittanceScan.ResultsTableShape` | lattice/elettra_toolbox.py:115-116 | with one row per sample, the index and the three columns have equal length, the index is named after the variable, and the columns are NaN at the same points |
| `EmittanceScan.MiddleTwissFailure` | lattice/elettra_toolbox.py:119-140 | a three-point sweep whose middle TWISS fails runs to completion with three rows: the report, NaN, the report |
| `ToolboxCheckpoint.GetEmittancesFromMadxOutput` | lattice/.ipynb_checkpoints/elettra_toolbox-checkpoint.py:6-26 | for every output and flag it returns the same as the toolbox's parser |
| `ToolboxCheckpoint.CheckpointReadsLastEmitLine` | lattice/.ipynb_checkpoints/elettra_toolbox-checkpoint.py:18-19 | earlier output never changes the copy's result once later output holds an emittance line |
| `ToolboxCheckpoint.CheckpointNoEmitLine` | lattice/.ipynb_checkpoints/elettra_toolbox-checkpoint.py:19 | with no line starting with the prefix the copy fails with `NoEmittanceLine` |
| `ToolboxCheckpoint.CheckpointReadsFieldsAfterPrefix` | lattice/.ipynb_checkpoints/elettra_toolbox-checkpoint.py:18-25 | the copy reads the first three fields of the last EMIT report as x, y, z, whatever runs of blanks pad its columns |
| `ToolboxCheckpoint.CheckpointScaling` | lattice/.ipynb_checkpoints/elettra_toolbox-checkpoint.py:16-25 | comparing both values of `to_meters` on the same file: the copy divides by 1e6 with it and by 1 without, and the flag changes neither success nor the tokens read |

## Left out

- MAD-X itself (`Madx(...)`, `twiss`, `survey`, `emit`, the survey table) is an external program. The model has only the oracle `Engine` and the globals map. The `deltap` global that EMIT reads is covered by the engine's dependence on the globals.
- The `Engine` answers questions and prints text, but it cannot write a MAD-X global. Only the driver's own assignment at lattice/elettra_toolbox.py:121 changes the globals, which is why `ScanGlobals` and `PointGlobals` hold. A MAD-X command that changed a global would not be captured.
- The model's engine cannot raise anything other than a failed TWISS. An error raised by SURVEY or EMIT would propagate and end the sweep in the source; the model does not have it.
- File access (`Path.read_text`, `open`, `os.remove`) is I/O. The parser takes the file's characters, and the model applies `read_text()`'s universal-newline translation to them. Decoding the file's bytes into characters is not modelled. The model assumes `madx_output_file` is the file the session prints to.
- `float()` and the IEEE division by 1e6 are floating-point arithmetic. A component is the printed token together with its divisor. A token that `float()` rejects would raise `ValueError` and end the sweep; the model does not have that failure. A printed `nan` would give a NaN in a parsed row; the model records it as the token `nan`, and only a caught failure is `None`.
- The survey coordinates are reals, so NaN coordinates are not modelled. In the source a NaN x difference fails the x assert at lattice/elettra_toolbox.py:74, so the z assert at :75 is never reached.
- The closure check relies on `assert` (lattice/elettra_toolbox.py:74-75). Under `python -O` the asserts are removed, an open machine then gets parsed values instead of NaN, and the check never fails. The model keeps the asserts.
- `np.linspace` is numpy floating point. `ScanConfig` carries `scan_space` as a given sequence, and its other fields are kept only as data.
- `PyText.Tokens`: handles only text without quote or backslash characters, where `shlex.split` splits on runs of space, tab, carriage return and newline. Quoting, escapes and the `ValueError` for an unclosed quote are not modelled.
- `MadxOutput.ScalingFactor`: takes `to_meters` as a boolean, so a truthy non-boolean argument, which `is True` treats as false, is not modelled.
- Logging, plotting, pandas and persistence are left out. The DataFrame is the `EmitResults` datatype: index, index name and three columns.
- The launch and plotting script `lattice/elettra2.0_mask.py` is not part of this model.
- The scan scripts are not part of this model. `lattice/elettra2.0_scan_quads.py` is a 2-D sweep over two quadrupole strengths. The notebook checkpoints `elettra2.0_scan_antibends-checkpoint.py` and `elettra2.0_scan_vader-checkpoint.py` are 1-D sweeps over one strength. All three are MAD-X launches and file operations around the same accumulate-or-NaN loop, with a bare `except:`.
