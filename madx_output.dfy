/**
 * The emittance parser of the toolbox: it reads the text MAD-X wrote to its
 * output file and returns the x, y and z emittances reported by the last EMIT
 * command. The numeric conversion `float(token)` is not modelled: a component
 * is the token MAD-X printed together with the factor it is divided by.
 */
module MadxOutput {
  import opened Wrappers
  import opened PyText

  /** The exact start of the line EMIT prints, leading space included. */
  const EmittancesPrefix: string := " Emittances [pi micro m]"

  /** The shell words of `EmittancesPrefix`. */
  const PrefixWords: seq<string> := ["Emittances", "[pi", "micro", "m]"]

  /** The divisor that turns pi-micrometres into metres. */
  const MicronsPerMeter: real := 1000000.0

  /** One emittance component: `float(token) / scalingFactor`. */
  datatype Emittance = Emittance(token: string, scalingFactor: real)

  datatype Emittances = Emittances(x: Emittance, y: Emittance, z: Emittance)

  /**
   * Both failures are an `IndexError` in the source: `[-1]` on an empty list of
   * matching lines, and `[4]`..`[6]` on a line with fewer than seven tokens.
   */
  datatype ParseError = NoEmittanceLine | TooFewTokens(count: nat)

  /** `1e6 if to_meters is True else 1`: a positive divisor, `1` unless `to_meters` holds. */
  function ScalingFactor(toMeters: bool): (f: real)
    ensures f > 0.0
    ensures f == 1.0 <==> !toMeters
  {
    if toMeters then MicronsPerMeter else 1.0
  }

  /** `read_text().split("\n")`: the lines of the output file as the parser sees them. */
  function OutputLines(output: string): seq<string>
  {
    Split(ReadText(output), '\n')
  }

  /** The lines of the output that start with `EmittancesPrefix`, in order. */
  function EmitLines(output: string): (lines: seq<string>)
    ensures forall i :: 0 <= i < |lines| ==>
              StartsWith(lines[i], EmittancesPrefix) && lines[i] in OutputLines(output)
    ensures forall line :: line in OutputLines(output) && StartsWith(line, EmittancesPrefix) ==> line in lines
  {
    Filter(OutputLines(output), EmittancesPrefix)
  }

  /**
   * Tokens 4, 5 and 6 of a matched line, as x, y and z: each is a shell word of
   * the line, divided by the given factor. Fewer than seven tokens is an error.
   */
  function ReadEmitLine(line: string, scalingFactor: real): (r: Result<Emittances, ParseError>)
    ensures r.Success? ==>
              && r.value.x.token in Tokens(line) && IsWord(r.value.x.token)
              && r.value.y.token in Tokens(line) && IsWord(r.value.y.token)
              && r.value.z.token in Tokens(line) && IsWord(r.value.z.token)
              && r.value.x.scalingFactor == r.value.y.scalingFactor == r.value.z.scalingFactor == scalingFactor
    ensures r.Failure? ==> r.error.TooFewTokens? && r.error.count < 7
  {
    var tokens := Tokens(line);
    if |tokens| < 7 then Failure(TooFewTokens(|tokens|))
    else Success(Emittances(Emittance(tokens[4], scalingFactor),
                            Emittance(tokens[5], scalingFactor),
                            Emittance(tokens[6], scalingFactor)))
  }

  /**
   * `get_emittances_from_madx_output`, on the contents of the output file
   * rather than its path. It fails with `NoEmittanceLine` exactly when no line
   * of the output starts with the prefix; it never falls back to a default.
   */
  function GetEmittancesFromMadxOutput(output: string, toMeters: bool): (r: Result<Emittances, ParseError>)
    ensures r == Failure(NoEmittanceLine) <==>
            forall line :: line in OutputLines(output) ==> !StartsWith(line, EmittancesPrefix)
    ensures r.Failure? && r.error.TooFewTokens? ==>
            EmitLines(output) != [] && |Tokens(EmitLines(output)[|EmitLines(output)| - 1])| < 7
  {
    var scalingFactor := ScalingFactor(toMeters);
    var emitLines := EmitLines(output);
    if emitLines == [] then Failure(NoEmittanceLine)
    else ReadEmitLine(emitLines[|emitLines| - 1], scalingFactor)
  }

  // ---------------------------------------------------------------------
  // Which line is read.

  /**
   * The result is read from the matching line with the highest index, whatever
   * the earlier lines hold.
   */
  lemma ParserReadsLastEmitLine(output: string, toMeters: bool, j: nat)
    requires j < |OutputLines(output)| && StartsWith(OutputLines(output)[j], EmittancesPrefix)
    requires forall k :: j < k < |OutputLines(output)| ==> !StartsWith(OutputLines(output)[k], EmittancesPrefix)
    ensures GetEmittancesFromMadxOutput(output, toMeters)
         == ReadEmitLine(OutputLines(output)[j], ScalingFactor(toMeters))
  {
    var emitLines := EmitLines(output);
    assert emitLines != [] && emitLines[|emitLines| - 1] == OutputLines(output)[j] by {
      FilterLast(OutputLines(output), EmittancesPrefix, j);
    }
  }

  /**
   * Tokens 4, 5 and 6 of the last emittance line of the output are x, y and z;
   * the parser fails with `TooFewTokens` exactly when that line has fewer than
   * seven tokens.
   */
  lemma ParserTokensOfLastLine(output: string, toMeters: bool, j: nat)
    requires j < |OutputLines(output)| && StartsWith(OutputLines(output)[j], EmittancesPrefix)
    requires forall k :: j < k < |OutputLines(output)| ==> !StartsWith(OutputLines(output)[k], EmittancesPrefix)
    ensures var tokens, r := Tokens(OutputLines(output)[j]), GetEmittancesFromMadxOutput(output, toMeters);
            var f := ScalingFactor(toMeters);
            (r.Failure? <==> |tokens| < 7)
            && (r.Failure? ==> r.error == TooFewTokens(|tokens|))
            && (r.Success? ==> r.value == Emittances(Emittance(tokens[4], f), Emittance(tokens[5], f),
                                                     Emittance(tokens[6], f)))
  {
    ParserReadsLastEmitLine(output, toMeters, j);
  }

  /** Complete lines written before can be dropped: only what follows matters. */
  lemma SplitAfterCompleteLines(earlier: string, later: string)
    requires earlier == [] || earlier[|earlier| - 1] == '\n'
    ensures EmitLines(earlier + later) == EmitLines(earlier) + EmitLines(later)
  {
    var both := earlier + later;
    if earlier == [] {
      assert both == later;
      assert EmitLines(earlier) == [];
    } else {
      var a, b := ReadText(earlier), ReadText(later);
      assert ReadText(both) == a + b by {
        ReadTextAppend(earlier, later);
      }
      assert a != [] && a[|a| - 1] == '\n' by {
        ReadTextEndsLine(earlier);
      }
      var pieces := Split(a, '\n');
      assert |pieces| >= 2 && Split(a + b, '\n') == pieces[..|pieces| - 1] + Split(b, '\n') by {
        SplitAppend(a, b, '\n');
      }
      var init := pieces[..|pieces| - 1];
      assert EmitLines(earlier) == Filter(init, EmittancesPrefix) by {
        LastPieceEmpty(a);
        assert pieces == init + [[]];
        FilterAppend(init, [[]], EmittancesPrefix);
      }
      assert EmitLines(both) == Filter(init, EmittancesPrefix) + EmitLines(later) by {
        FilterAppend(init, Split(b, '\n'), EmittancesPrefix);
      }
    }
  }

  /** After a final newline, `split` yields an empty last piece. */
  lemma LastPieceEmpty(s: string)
    requires s != [] && s[|s| - 1] == '\n'
    ensures Split(s, '\n')[|Split(s, '\n')| - 1] == []
  {
    SplitAppend(s, [], '\n');
    assert s + [] == s;
  }

  /**
   * Earlier output never affects the result once the later output holds an
   * emittance line: a stale EMIT report is never read in place of a newer one.
   */
  lemma EarlierOutputIgnored(earlier: string, later: string, toMeters: bool)
    requires earlier == [] || earlier[|earlier| - 1] == '\n'
    requires EmitLines(later) != []
    ensures GetEmittancesFromMadxOutput(earlier + later, toMeters)
         == GetEmittancesFromMadxOutput(later, toMeters)
  {
    var e, l := EmitLines(earlier), EmitLines(later);
    var all := EmitLines(earlier + later);
    assert all == e + l by {
      SplitAfterCompleteLines(earlier, later);
    }
    assert all[|all| - 1] == l[|l| - 1];
  }

  /**
   * Later output without an emittance line leaves the result what it was:
   * the parser then reads the earlier report again.
   */
  lemma LaterOutputWithoutEmitLine(earlier: string, later: string, toMeters: bool)
    requires earlier == [] || earlier[|earlier| - 1] == '\n'
    requires EmitLines(later) == []
    ensures GetEmittancesFromMadxOutput(earlier + later, toMeters)
         == GetEmittancesFromMadxOutput(earlier, toMeters)
  {
    assert EmitLines(earlier + later) == EmitLines(earlier) + [] by {
      SplitAfterCompleteLines(earlier, later);
    }
    assert EmitLines(earlier) + [] == EmitLines(earlier);
  }

  /** A line that does not begin with a space is never an emittance line. */
  lemma LeadingSpaceRequired(output: string, toMeters: bool)
    requires forall line :: line in OutputLines(output) ==> line == [] || line[0] != ' '
    ensures GetEmittancesFromMadxOutput(output, toMeters) == Failure(NoEmittanceLine)
  {
    assert EmittancesPrefix[0] == ' ';
  }

  // ---------------------------------------------------------------------
  // Which tokens are read.

  /** The prefix itself is four shell words. */
  lemma PrefixTokens()
    ensures Tokens(EmittancesPrefix) == PrefixWords
  {
    assert EmittancesPrefix == Unwords(PrefixWords);
    forall i | 0 <= i < |PrefixWords|
      ensures IsWord(PrefixWords[i])
    {
    }
    TokensUnwords(PrefixWords);
  }

  /** `ReadEmitLine` on a line whose tokens are the four prefix words and `fields`. */
  lemma ReadLineOfTokens(line: string, fields: seq<string>, scalingFactor: real)
    requires Tokens(line) == PrefixWords + fields
    ensures ReadEmitLine(line, scalingFactor)
            == if |fields| >= 3
               then Success(Emittances(Emittance(fields[0], scalingFactor),
                                       Emittance(fields[1], scalingFactor),
                                       Emittance(fields[2], scalingFactor)))
               else Failure(TooFewTokens(4 + |fields|))
  {
    var tokens := PrefixWords + fields;
    if |fields| >= 3 {
      assert tokens[4] == fields[0] && tokens[5] == fields[1] && tokens[6] == fields[2];
    }
  }

  /** Any text whose tokens are the prefix words, followed by blank-led fields. */
  lemma ReadFieldsAfterWords(head: string, rest: string, scalingFactor: real)
    requires Tokens(head) == PrefixWords
    requires rest == [] || IsBlank(rest[0])
    ensures var fields := Tokens(rest);
            ReadEmitLine(head + rest, scalingFactor)
            == if |fields| >= 3
               then Success(Emittances(Emittance(fields[0], scalingFactor),
                                       Emittance(fields[1], scalingFactor),
                                       Emittance(fields[2], scalingFactor)))
               else Failure(TooFewTokens(4 + |fields|))
  {
    assert Tokens(head + rest) == PrefixWords + Tokens(rest) by {
      TokensAppend(head, rest);
    }
    ReadLineOfTokens(head + rest, Tokens(rest), scalingFactor);
  }

  /**
   * On a line made of the prefix and blank-separated fields, x, y and z are the
   * first three fields; fewer than three fields is an error.
   */
  lemma ReadFieldsAfterPrefix(rest: string, scalingFactor: real)
    requires rest == [] || IsBlank(rest[0])
    ensures var fields := Tokens(rest);
            ReadEmitLine(EmittancesPrefix + rest, scalingFactor)
            == if |fields| >= 3
               then Success(Emittances(Emittance(fields[0], scalingFactor),
                                       Emittance(fields[1], scalingFactor),
                                       Emittance(fields[2], scalingFactor)))
               else Failure(TooFewTokens(4 + |fields|))
  {
    PrefixTokens();
    ReadFieldsAfterWords(EmittancesPrefix, rest, scalingFactor);
  }

  /**
   * The factor is `1e6` exactly when `toMeters` holds and `1` otherwise; the flag
   * changes nothing else, and in particular not whether the parser fails.
   */
  lemma ScalingOnlyWhenToMeters(output: string)
    ensures var inMeters, raw := GetEmittancesFromMadxOutput(output, true),
                                 GetEmittancesFromMadxOutput(output, false);
            (inMeters.Success? <==> raw.Success?)
            && (raw.Failure? ==> inMeters == raw)
            && (raw.Success? ==>
                  inMeters.value == Emittances(Emittance(raw.value.x.token, MicronsPerMeter),
                                               Emittance(raw.value.y.token, MicronsPerMeter),
                                               Emittance(raw.value.z.token, MicronsPerMeter))
                  && raw.value.x.scalingFactor == 1.0
                  && raw.value.y.scalingFactor == 1.0
                  && raw.value.z.scalingFactor == 1.0)
  {
  }

  // ---------------------------------------------------------------------
  // Round trip with the line EMIT writes.

  /** The line EMIT prints, as the scenarios below lay it out: the prefix, then the fields, one space before each. */
  function EmitReport(fields: seq<string>): string
  {
    EmittancesPrefix + Unwords(fields)
  }

  /**
   * Parsing an output whose last emittance line is the prefix followed by
   * fields in blank-padded columns gives back the first three fields, scaled as
   * asked.
   */
  lemma ParseEmitReport(lines: seq<string>, j: nat, fields: seq<string>, gaps: seq<string>, toMeters: bool)
    requires j < |lines|
    requires forall i :: 0 <= i < |lines| ==> '\n' !in lines[i] && '\r' !in lines[i]
    requires |fields| >= 3 && forall i :: 0 <= i < |fields| ==> IsWord(fields[i])
    requires Separates(gaps, |fields|) && gaps[0] != []
    requires lines[j] == EmittancesPrefix + Padded(fields, gaps)
    requires forall k :: j < k < |lines| ==> !StartsWith(lines[k], EmittancesPrefix)
    ensures var f := ScalingFactor(toMeters);
            GetEmittancesFromMadxOutput(Join(lines, '\n'), toMeters)
            == Success(Emittances(Emittance(fields[0], f), Emittance(fields[1], f), Emittance(fields[2], f)))
  {
    var text := Join(lines, '\n');
    JoinAvoids(lines, '\n', '\r');
    ReadTextPlain(text);
    SplitJoin(lines, '\n');
    assert OutputLines(text) == lines;
    assert EmittancesPrefix <= lines[j];
    ParserReadsLastEmitLine(text, toMeters, j);
    var rest := Padded(fields, gaps);
    assert rest[0] == gaps[0][0];
    TokensPadded(fields, gaps);
    ReadFieldsAfterPrefix(rest, ScalingFactor(toMeters));
  }
}
