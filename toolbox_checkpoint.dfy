/**
 * The notebook checkpoint copy of the toolbox keeps its own
 * `get_emittances_from_madx_output`. Its body is the same as the toolbox's, and
 * the contract below says so for every input; the lemmas restate the parser's
 * properties for this copy.
 */
module ToolboxCheckpoint {
  import opened Wrappers
  import opened PyText
  import MadxOutput

  function GetEmittancesFromMadxOutput(output: string, toMeters: bool)
    : (r: Result<MadxOutput.Emittances, MadxOutput.ParseError>)
    ensures r == MadxOutput.GetEmittancesFromMadxOutput(output, toMeters)
  {
    var scalingFactor := if toMeters then 1000000.0 else 1.0;
    var emitLines := Filter(Split(ReadText(output), '\n'), " Emittances [pi micro m]");
    if emitLines == [] then Failure(MadxOutput.NoEmittanceLine)
    else
      var tokens := Tokens(emitLines[|emitLines| - 1]);
      if |tokens| < 7 then Failure(MadxOutput.TooFewTokens(|tokens|))
      else Success(MadxOutput.Emittances(MadxOutput.Emittance(tokens[4], scalingFactor),
                                         MadxOutput.Emittance(tokens[5], scalingFactor),
                                         MadxOutput.Emittance(tokens[6], scalingFactor)))
  }

  /** The copy also reads only the last emittance line. */
  lemma CheckpointReadsLastEmitLine(earlier: string, later: string, toMeters: bool)
    requires earlier == [] || earlier[|earlier| - 1] == '\n'
    requires MadxOutput.EmitLines(later) != []
    ensures GetEmittancesFromMadxOutput(earlier + later, toMeters)
         == GetEmittancesFromMadxOutput(later, toMeters)
  {
    MadxOutput.EarlierOutputIgnored(earlier, later, toMeters);
  }

  /** Without a line starting with the prefix, the copy fails rather than returning a default. */
  lemma CheckpointNoEmitLine(output: string, toMeters: bool)
    requires forall line :: line in MadxOutput.OutputLines(output) ==> !StartsWith(line, MadxOutput.EmittancesPrefix)
    ensures GetEmittancesFromMadxOutput(output, toMeters) == Failure(MadxOutput.NoEmittanceLine)
  {
  }

  /** The copy reads the first three fields of the last EMIT report, whatever blanks pad its columns. */
  lemma CheckpointReadsFieldsAfterPrefix(lines: seq<string>, j: nat, fields: seq<string>, gaps: seq<string>,
                                         toMeters: bool)
    requires j < |lines|
    requires forall i :: 0 <= i < |lines| ==> '\n' !in lines[i] && '\r' !in lines[i]
    requires |fields| >= 3 && forall i :: 0 <= i < |fields| ==> IsWord(fields[i])
    requires Separates(gaps, |fields|) && gaps[0] != []
    requires lines[j] == MadxOutput.EmittancesPrefix + Padded(fields, gaps)
    requires forall k :: j < k < |lines| ==> !StartsWith(lines[k], MadxOutput.EmittancesPrefix)
    ensures var f := if toMeters then 1000000.0 else 1.0;
            GetEmittancesFromMadxOutput(Join(lines, '\n'), toMeters)
            == Success(MadxOutput.Emittances(MadxOutput.Emittance(fields[0], f),
                                             MadxOutput.Emittance(fields[1], f),
                                             MadxOutput.Emittance(fields[2], f)))
  {
    MadxOutput.ParseEmitReport(lines, j, fields, gaps, toMeters);
  }

  /**
   * Two runs of the copy on the same output: the flag decides only the divisor
   * (`1e6` against `1`), not whether it fails nor which tokens it reads.
   */
  lemma CheckpointScaling(output: string)
    ensures var inMeters, raw := GetEmittancesFromMadxOutput(output, true),
                                 GetEmittancesFromMadxOutput(output, false);
            (inMeters.Success? <==> raw.Success?)
            && (raw.Failure? ==> inMeters == raw)
            && (raw.Success? ==>
                  inMeters.value == MadxOutput.Emittances(MadxOutput.Emittance(raw.value.x.token, 1000000.0),
                                                          MadxOutput.Emittance(raw.value.y.token, 1000000.0),
                                                          MadxOutput.Emittance(raw.value.z.token, 1000000.0))
                  && raw.value.x.scalingFactor == 1.0
                  && raw.value.y.scalingFactor == 1.0
                  && raw.value.z.scalingFactor == 1.0)
  {
    MadxOutput.ScalingOnlyWhenToMeters(output);
  }
}
