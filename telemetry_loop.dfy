/**
 * The stateful part of temp_to_thing_speak.py: the identification loop of
 * `getIdKey`, the configuration lookup of `readConfigData`, and the polling
 * loop of `main` as a class whose fields are main's loop variables. Serial
 * replies, the clock, `ast.literal_eval` and the terminal are inputs; the
 * log-file effects, the echo of each piece and each payload sent are
 * recorded in a ghost trace.
 */
module TelemetryLoop {
  import opened Wrappers
  import opened PyStr
  import opened Telemetry

  /**
   * `getIdKey`: up to five attempts; each one made while no key is known
   * sends one query and scans every non-empty line of the reply for the
   * banners in map order. `replies[i]` is what the device answers to the
   * i-th query. The result is `None` where the final `assert idKey` fails.
   */
  method GetIdKey(bannerToKeyMap: seq<(string, string)>, replies: seq<string>)
    returns (idKey: Option<string>, queries: nat)
    requires |replies| == MaxIdAttempts
    ensures idKey.None? <==> IdentifyAfter(bannerToKeyMap, replies) == ""
    ensures idKey.Some? ==> idKey.value == IdentifyAfter(bannerToKeyMap, replies)
    ensures queries == QueriesAfter(bannerToKeyMap, replies)
  {
    var key := "";
    queries := 0;
    for i := 0 to MaxIdAttempts
      invariant key == IdentifyAfter(bannerToKeyMap, replies[..i])
      invariant queries == QueriesAfter(bannerToKeyMap, replies[..i])
    {
      assert replies[..i + 1][..i] == replies[..i];
      if key == "" {
        queries := queries + 1;
        var lines := SplitCrlf(replies[i]);
        for j := 0 to |lines|
          invariant key == ScanLines(lines[..j], bannerToKeyMap, "")
        {
          ScanLinesNext(lines, j, bannerToKeyMap);
          var line := lines[j];
          if line != [] {
            key := ScanOneLine(line, bannerToKeyMap, key);
          }
        }
        assert lines[..|lines|] == lines;
      }
    }
    assert replies[..MaxIdAttempts] == replies;
    idKey := if key == "" then None else Some(key);
  }

  /** Scanning one more line of a reply. */
  lemma ScanLinesNext(lines: seq<string>, j: nat, bannerToKeyMap: seq<(string, string)>)
    requires j < |lines|
    ensures var before := ScanLines(lines[..j], bannerToKeyMap, "");
      var after := ScanLines(lines[..j + 1], bannerToKeyMap, "");
      && (lines[j] == [] || MatchBanner(lines[j], bannerToKeyMap).None? ==> after == before)
      && (lines[j] != [] && MatchBanner(lines[j], bannerToKeyMap).Some? ==>
            after == MatchBanner(lines[j], bannerToKeyMap).value)
  {
    assert lines[..j + 1][..j] == lines[..j];
  }

  /**
   * The banner loop for one line: the first banner, in map order, found in
   * `line` sets the key; with no banner the key is left as it was.
   */
  method ScanOneLine(line: string, bannerToKeyMap: seq<(string, string)>, key: string)
    returns (newKey: string)
    ensures MatchBanner(line, bannerToKeyMap).Some? ==> newKey == MatchBanner(line, bannerToKeyMap).value
    ensures MatchBanner(line, bannerToKeyMap).None? ==> newKey == key
  {
    newKey := key;
    var m := 0;
    while m < |bannerToKeyMap|
      invariant 0 <= m <= |bannerToKeyMap|
      invariant MatchBanner(line, bannerToKeyMap) == MatchBanner(line, bannerToKeyMap[m..])
      invariant newKey == key
    {
      assert bannerToKeyMap[m..][1..] == bannerToKeyMap[m + 1..];
      if Contains(line, bannerToKeyMap[m].0) {
        newKey := bannerToKeyMap[m].1;
        return;
      }
      m := m + 1;
    }
  }

  /**
   * `readConfigData` once the file is read and parsed: the banner map must
   * be present, an identity must be found, and the configuration must hold
   * a record under that identity.
   */
  method ReadConfigData(data: ConfigData, replies: seq<string>) returns (r: Result<ConfigRecord, ConfigError>)
    requires |replies| == MaxIdAttempts
    ensures data.bannerToKeyMap.None? <==> r == Failure(NoBannerMap)
    ensures data.bannerToKeyMap.Some? ==>
      var id := IdentifyAfter(data.bannerToKeyMap.value, replies);
      && (id == "" <==> r == Failure(NoIdentity))
      && (id != "" && id !in data.records <==> r == Failure(UnknownIdentity(id)))
      && (r.Success? <==> id != "" && id in data.records)
      && (r.Success? ==> r.value == data.records[id])
  {
    if data.bannerToKeyMap.None? {
      return Failure(NoBannerMap);
    }
    var idKey, _ := GetIdKey(data.bannerToKeyMap.value, replies);
    if idKey.None? {
      return Failure(NoIdentity);
    }
    if idKey.value !in data.records {
      return Failure(UnknownIdentity(idKey.value));
    }
    return Success(data.records[idKey.value]);
  }

  /** The trace of a date check: nothing on the same day, else close the old file and open the new one. */
  function RollEffects(root: string, stamp: Option<string>, open: Option<string>, today: string): (es: seq<Effect>)
    ensures es == [] <==> stamp == Some(today)
    ensures es != [] ==> es[|es| - 1] == Opened(LogFileName(root, today))
    ensures forall i | 0 <= i < |es| :: es[i] == Opened(LogFileName(root, today)) || (open.Some? && es[i] == Closed(open.value))
  {
    if stamp == Some(today) then []
    else (if open.Some? then [Closed(open.value)] else []) + [Opened(LogFileName(root, today))]
  }

  /**
   * The date check opens a file exactly when the date changed; the file
   * opened is the new day's, and a stream that was open is closed first.
   */
  lemma RolloverOrder(root: string, stamp: Option<string>, open: Option<string>, today: string)
    ensures RollEffects(root, stamp, open, today) == [] <==> stamp == Some(today)
    ensures stamp != Some(today) && open.None? ==>
      RollEffects(root, stamp, open, today) == [Opened(LogFileName(root, today))]
    ensures stamp != Some(today) && open.Some? ==>
      RollEffects(root, stamp, open, today) == [Closed(open.value), Opened(LogFileName(root, today))]
  {
  }

  /** The trace of reporting a record: the log write, then the update when the payload could be built. */
  function ReportEffects(file: string, today: string, rec: Record, channelKeys: seq<string>,
                         asctime: string, line: string): (es: seq<Effect>)
    ensures 1 <= |es| <= 2 && es[0] == Wrote(file, today, rec)
    ensures |es| == 2 <==> PayloadDefined(rec, channelKeys)
    ensures |es| == 2 ==> es[1].Sent? && Carries(rec, channelKeys, asctime, line, es[1].payload)
    ensures |es| == 2 ==> es[1].payload.status == asctime + " " + line
  {
    [Wrote(file, today, rec)]
    + match BuildPayload(rec, channelKeys, asctime, line)
      case Some(p) => [Sent(p)]
      case None => []
  }

  /**
   * The loop invariant over values: the open stream is the log file of the
   * current date, streams are opened, written and closed one at a time,
   * and every record is written to the file of its own day.
   */
  predicate LogDiscipline(root: string, stamp: Option<string>, open: Option<string>, trace: seq<Effect>)
  {
    && (stamp.None? <==> open.None?)
    && (stamp.Some? ==> open == Some(LogFileName(root, stamp.value)))
    && Disciplined(trace)
    && OpenAfter(trace) == open
    && WritesMatchDates(root, trace)
  }

  /** Effects from index `start` on open only the file of `today` and log only its records. */
  predicate OnlyTodayFrom(root: string, trace: seq<Effect>, start: nat, today: string)
  {
    forall i | start <= i < |trace| ::
      && (trace[i].Opened? ==> trace[i].file == LogFileName(root, today))
      && (trace[i].Wrote? ==> trace[i].day == today)
  }

  /** Two stretches of a trace that each touch only today's file make one. */
  lemma OnlyTodayJoin(root: string, mid: seq<Effect>, trace: seq<Effect>, start: nat, today: string)
    requires start <= |mid| && mid <= trace
    requires OnlyTodayFrom(root, mid, start, today) && OnlyTodayFrom(root, trace, |mid|, today)
    ensures OnlyTodayFrom(root, trace, start, today)
  {
    forall i | start <= i < |mid| ensures trace[i] == mid[i] {}
  }

  /** Appending effects that touch only today's file keeps a stretch touching only today's file. */
  lemma TodayAppend(root: string, trace: seq<Effect>, extra: seq<Effect>, start: nat, today: string)
    requires start <= |trace| && OnlyTodayFrom(root, trace, start, today)
    requires OnlyTodayFrom(root, extra, 0, today)
    ensures OnlyTodayFrom(root, trace + extra, start, today)
  {
    forall i | start <= i < |trace + extra|
      ensures (trace + extra)[i] == if i < |trace| then trace[i] else extra[i - |trace|]
    {}
  }

  /** The effects of one record line touch only the file of the day it arrived. */
  lemma RecordEffectsToday(root: string, stamp: Option<string>, open: Option<string>, today: string,
                           rec: Record, channelKeys: seq<string>, asctime: string, line: string)
    ensures OnlyTodayFrom(root, RollEffects(root, stamp, open, today), 0, today)
    ensures OnlyTodayFrom(root, ReportEffects(LogFileName(root, today), today, rec, channelKeys, asctime, line), 0, today)
  {
  }

  /** An effect that writes nothing keeps every write on its own day's file. */
  lemma DatesKeptBy(root: string, trace: seq<Effect>, e: Effect)
    requires WritesMatchDates(root, trace) && !e.Wrote?
    ensures WritesMatchDates(root, trace + [e])
  {
    forall i | 0 <= i < |trace + [e]| && (trace + [e])[i].Wrote?
      ensures (trace + [e])[i].file == LogFileName(root, (trace + [e])[i].day)
    {
      assert i < |trace| && (trace + [e])[i] == trace[i];
    }
  }

  /** Opening a file while none is open. */
  lemma OpenKeeps(root: string, trace: seq<Effect>, f: string)
    requires Disciplined(trace) && OpenAfter(trace).None? && WritesMatchDates(root, trace)
    ensures Disciplined(trace + [Opened(f)]) && OpenAfter(trace + [Opened(f)]) == Some(f)
    ensures WritesMatchDates(root, trace + [Opened(f)])
  {
    TraceAppend(trace, Opened(f));
    DatesKeptBy(root, trace, Opened(f));
  }

  /** Closing the open file. */
  lemma CloseKeeps(root: string, trace: seq<Effect>, f: string)
    requires Disciplined(trace) && OpenAfter(trace) == Some(f) && WritesMatchDates(root, trace)
    ensures Disciplined(trace + [Closed(f)]) && OpenAfter(trace + [Closed(f)]).None?
    ensures WritesMatchDates(root, trace + [Closed(f)])
  {
    TraceAppend(trace, Closed(f));
    DatesKeptBy(root, trace, Closed(f));
  }

  /** Writing a record of `day` to the open file, which is that day's. */
  lemma WriteKeeps(root: string, trace: seq<Effect>, day: string, rec: Record)
    requires Disciplined(trace) && OpenAfter(trace) == Some(LogFileName(root, day))
    requires WritesMatchDates(root, trace)
    ensures Disciplined(trace + [Wrote(LogFileName(root, day), day, rec)])
    ensures OpenAfter(trace + [Wrote(LogFileName(root, day), day, rec)]) == OpenAfter(trace)
    ensures WritesMatchDates(root, trace + [Wrote(LogFileName(root, day), day, rec)])
  {
    var w := Wrote(LogFileName(root, day), day, rec);
    TraceAppend(trace, w);
    forall i | 0 <= i < |trace + [w]| && (trace + [w])[i].Wrote?
      ensures (trace + [w])[i].file == LogFileName(root, (trace + [w])[i].day)
    {
      if i < |trace| { assert (trace + [w])[i] == trace[i]; }
    }
  }

  /** An effect that neither opens, closes nor writes: an echo or an update. */
  lemma QuietKeeps(root: string, trace: seq<Effect>, e: Effect)
    requires e.Echoed? || e.Sent?
    requires Disciplined(trace) && WritesMatchDates(root, trace)
    ensures Disciplined(trace + [e]) && OpenAfter(trace + [e]) == OpenAfter(trace)
    ensures WritesMatchDates(root, trace + [e])
  {
    TraceAppend(trace, e);
    DatesKeptBy(root, trace, e);
  }

  /** The date check keeps the discipline and leaves today's file open. */
  lemma RollKeeps(root: string, stamp: Option<string>, open: Option<string>, trace: seq<Effect>, today: string)
    requires LogDiscipline(root, stamp, open, trace)
    ensures LogDiscipline(root, Some(today), Some(LogFileName(root, today)),
                          trace + RollEffects(root, stamp, open, today))
  {
    var f := LogFileName(root, today);
    var rolled := trace + RollEffects(root, stamp, open, today);
    if stamp == Some(today) {
      assert rolled == trace;
    } else if open.None? {
      OpenKeeps(root, trace, f);
      assert rolled == trace + [Opened(f)];
    } else {
      var closed := trace + [Closed(open.value)];
      CloseKeeps(root, trace, open.value);
      OpenKeeps(root, closed, f);
      assert rolled == closed + [Opened(f)];
    }
  }

  /** Echoing a line keeps the discipline. */
  lemma EchoKeeps(root: string, stamp: Option<string>, open: Option<string>, trace: seq<Effect>, text: string)
    requires LogDiscipline(root, stamp, open, trace)
    ensures LogDiscipline(root, stamp, open, trace + [Echoed(text)])
  {
    QuietKeeps(root, trace, Echoed(text));
  }

  /** Logging and reporting a record on the day whose file is open keeps the discipline. */
  lemma ReportKeeps(root: string, today: string, trace: seq<Effect>, rec: Record,
                    channelKeys: seq<string>, asctime: string, line: string)
    requires LogDiscipline(root, Some(today), Some(LogFileName(root, today)), trace)
    ensures LogDiscipline(root, Some(today), Some(LogFileName(root, today)),
                          trace + ReportEffects(LogFileName(root, today), today, rec, channelKeys, asctime, line))
  {
    var f := LogFileName(root, today);
    var w := Wrote(f, today, rec);
    WriteKeeps(root, trace, today, rec);
    match BuildPayload(rec, channelKeys, asctime, line)
    case Some(p) =>
      QuietKeeps(root, trace + [w], Sent(p));
      assert trace + ReportEffects(f, today, rec, channelKeys, asctime, line) == trace + [w] + [Sent(p)];
    case None =>
      assert trace + ReportEffects(f, today, rec, channelKeys, asctime, line) == trace + [w];
  }

  // ---------------------------------------------------------------------
  // One poll over values
  // ---------------------------------------------------------------------

  /** What the polling loop reads from the configuration. */
  datatype LoopConfig = LoopConfig(root: string, frequency: int, channelKeys: seq<string>)

  /**
   * `main`'s loop variables — `currentDateStamp`, the file `outputStream` is
   * open on, `outputDict` (None while unbound), `localFrequency` — and
   * everything done so far.
   */
  datatype LoopState = LoopState(stamp: Option<string>, open: Option<string>, dict: Option<Record>,
                                 localFrequency: int, effects: seq<Effect>)

  /** The state after some of the loop, and whether the loop died in it. */
  datatype Step = Step(state: LoopState, crashed: bool)

  /** The log discipline of a state. */
  predicate Sound(cfg: LoopConfig, s: LoopState)
  {
    LogDiscipline(cfg.root, s.stamp, s.open, s.effects)
  }

  /** `r` keeps the discipline, extends `s`'s trace, and what it adds touches only `today`'s file. */
  predicate KeptFrom(cfg: LoopConfig, s: LoopState, r: LoopState, today: string)
  {
    Sound(cfg, r) && s.effects <= r.effects && OnlyTodayFrom(cfg.root, r.effects, |s.effects|, today)
  }

  /**
   * A record line `t`, already stripped and echoed: take the configured
   * pause, roll the log over on a new day, parse the record (`parse` stands
   * for `ast.literal_eval`), then log and report it. The loop dies when
   * parsing fails while `outputDict` was never bound.
   */
  function RecordStep(cfg: LoopConfig, s: LoopState, t: string, today: string, asctime: string,
                      parse: string -> Option<Record>): (r: Step)
    ensures r.crashed <==> parse(t).None? && s.dict.None?
    ensures r.state.stamp == Some(today) && r.state.open == Some(LogFileName(cfg.root, today))
    ensures r.state.localFrequency == cfg.frequency
    ensures parse(t).Some? ==> r.state.dict == parse(t)
    ensures parse(t).None? ==> r.state.dict == s.dict
    ensures s.effects <= r.state.effects
  {
    var file := LogFileName(cfg.root, today);
    var dict := if parse(t).Some? then parse(t) else s.dict;
    var rolled := s.effects + RollEffects(cfg.root, s.stamp, s.open, today);
    if dict.None? then Step(LoopState(Some(today), Some(file), dict, cfg.frequency, rolled), true)
    else Step(LoopState(Some(today), Some(file), dict, cfg.frequency,
                        rolled + ReportEffects(file, today, dict.value, cfg.channelKeys, asctime, t)), false)
  }

  /**
   * The pieces of a reply as the loop body sees them, in order: each is
   * classified as written (temp_to_thing_speak.py:211-214).
   */
  function Classify(lines: seq<string>): (cs: seq<LineClass>)
    ensures |cs| == |lines|
    ensures forall i | 0 <= i < |lines| :: cs[i] == ClassifyLineAsWritten(lines[i])
  {
    seq(|lines|, i requires 0 <= i < |lines| => ClassifyLineAsWritten(lines[i]))
  }

  /**
   * One piece of the read buffer, classified: an empty piece is skipped;
   * any other is echoed stripped; a piece that was whitespace only then
   * dies on `line[0]`; one starting with '{' is handled as a record.
   */
  function LineStep(cfg: LoopConfig, s: LoopState, c: LineClass, today: string, asctime: string,
                    parse: string -> Option<Record>): (r: Step)
    ensures s.effects <= r.state.effects
    ensures r == Step(s, false) <==> c.Skipped?
    ensures r.crashed <==> c.IndexError? || (c.RecordLine? && parse(c.text).None? && s.dict.None?)
    ensures !c.RecordLine? ==> r.state.(effects := s.effects) == s
  {
    match c
    case Skipped => Step(s, false)
    case EchoOnly(t) => Step(s.(effects := s.effects + [Echoed(t)]), false)
    case IndexError => Step(s.(effects := s.effects + [Echoed("")]), true)
    case RecordLine(t) => RecordStep(cfg, s.(effects := s.effects + [Echoed(t)]), t, today, asctime, parse)
  }

  /** The pieces of one reply in order, stopping at the first that kills the loop. */
  function LinesStep(cfg: LoopConfig, s: LoopState, cs: seq<LineClass>, today: string, asctime: string,
                     parse: string -> Option<Record>): (r: Step)
    ensures s.effects <= r.state.effects
    ensures cs == [] ==> r == Step(s, false)
    decreases |cs|
  {
    if cs == [] then Step(s, false)
    else
      var before := LinesStep(cfg, s, cs[..|cs| - 1], today, asctime, parse);
      if before.crashed then before
      else LineStep(cfg, before.state, cs[|cs| - 1], today, asctime, parse)
  }

  /** A record line keeps the discipline and touches only today's file. */
  lemma RecordStepKeeps(cfg: LoopConfig, s: LoopState, t: string, today: string, asctime: string,
                        parse: string -> Option<Record>)
    requires Sound(cfg, s)
    ensures KeptFrom(cfg, s, RecordStep(cfg, s, t, today, asctime, parse).state, today)
  {
    var file := LogFileName(cfg.root, today);
    var roll := RollEffects(cfg.root, s.stamp, s.open, today);
    var rolled := s.effects + roll;
    RollKeeps(cfg.root, s.stamp, s.open, s.effects, today);
    RecordEffectsToday(cfg.root, s.stamp, s.open, today, map[], cfg.channelKeys, asctime, t);
    TodayAppend(cfg.root, s.effects, roll, |s.effects|, today);
    var r := RecordStep(cfg, s, t, today, asctime, parse);
    if !r.crashed {
      var rec := r.state.dict.value;
      var report := ReportEffects(file, today, rec, cfg.channelKeys, asctime, t);
      assert r.state.effects == rolled + report;
      ReportKeeps(cfg.root, today, rolled, rec, cfg.channelKeys, asctime, t);
      RecordEffectsToday(cfg.root, s.stamp, s.open, today, rec, cfg.channelKeys, asctime, t);
      TodayAppend(cfg.root, rolled, report, |s.effects|, today);
    }
  }

  /** Echoing keeps the discipline and touches no file. */
  lemma EchoKept(cfg: LoopConfig, s: LoopState, t: string, today: string)
    requires Sound(cfg, s)
    ensures KeptFrom(cfg, s, s.(effects := s.effects + [Echoed(t)]), today)
  {
    EchoKeeps(cfg.root, s.stamp, s.open, s.effects, t);
  }

  /** One piece keeps the discipline and touches only today's file. */
  lemma LineStepKeeps(cfg: LoopConfig, s: LoopState, c: LineClass, today: string, asctime: string,
                      parse: string -> Option<Record>)
    requires Sound(cfg, s)
    ensures KeptFrom(cfg, s, LineStep(cfg, s, c, today, asctime, parse).state, today)
  {
    match c
    case Skipped =>
    case EchoOnly(t) => EchoKept(cfg, s, t, today);
    case IndexError => EchoKept(cfg, s, "", today);
    case RecordLine(t) =>
      var echoed := s.(effects := s.effects + [Echoed(t)]);
      EchoKept(cfg, s, t, today);
      RecordStepKeeps(cfg, echoed, t, today, asctime, parse);
      OnlyTodayJoin(cfg.root, echoed.effects, LineStep(cfg, s, c, today, asctime, parse).state.effects,
                    |s.effects|, today);
  }

  /** Handling piece `i` after the first `i` pieces, when they did not kill the loop. */
  lemma LinesStepNext(cfg: LoopConfig, s: LoopState, cs: seq<LineClass>, i: nat, today: string,
                      asctime: string, parse: string -> Option<Record>)
    requires i < |cs| && !LinesStep(cfg, s, cs[..i], today, asctime, parse).crashed
    ensures LinesStep(cfg, s, cs[..i + 1], today, asctime, parse)
      == LineStep(cfg, LinesStep(cfg, s, cs[..i], today, asctime, parse).state, cs[i], today, asctime, parse)
  {
    assert cs[..i + 1][..i] == cs[..i];
  }

  /** A whole reply keeps the discipline and touches only today's file. */
  lemma {:induction false} LinesKeep(cfg: LoopConfig, s: LoopState, cs: seq<LineClass>, today: string,
                                     asctime: string, parse: string -> Option<Record>)
    requires Sound(cfg, s)
    ensures KeptFrom(cfg, s, LinesStep(cfg, s, cs, today, asctime, parse).state, today)
    decreases |cs|
  {
    if cs != [] {
      var n := |cs| - 1;
      var before := LinesStep(cfg, s, cs[..n], today, asctime, parse);
      LinesKeep(cfg, s, cs[..n], today, asctime, parse);
      if !before.crashed {
        LineStepKeeps(cfg, before.state, cs[n], today, asctime, parse);
        OnlyTodayJoin(cfg.root, before.state.effects, LinesStep(cfg, s, cs, today, asctime, parse).state.effects,
                      |s.effects|, today);
      }
    }
  }

  /** Nothing happens after the loop dies: the pieces after the fatal one are never looked at. */
  lemma {:induction false} CrashIsFinal(cfg: LoopConfig, s: LoopState, cs: seq<LineClass>, i: nat, today: string,
                                        asctime: string, parse: string -> Option<Record>)
    requires i <= |cs| && LinesStep(cfg, s, cs[..i], today, asctime, parse).crashed
    ensures LinesStep(cfg, s, cs, today, asctime, parse) == LinesStep(cfg, s, cs[..i], today, asctime, parse)
    decreases |cs|
  {
    if i < |cs| {
      var n := |cs| - 1;
      assert cs[..n][..i] == cs[..i];
      CrashIsFinal(cfg, s, cs[..n], i, today, asctime, parse);
    } else {
      assert cs[..i] == cs;
    }
  }

  /** A piece that fails on `line[0]` kills the loop, whatever came before it. */
  lemma {:induction false} FatalPieceKills(cfg: LoopConfig, s: LoopState, cs: seq<LineClass>, k: nat, today: string,
                                           asctime: string, parse: string -> Option<Record>)
    requires k < |cs| && cs[k].IndexError?
    ensures LinesStep(cfg, s, cs, today, asctime, parse).crashed
    decreases |cs|
  {
    var n := |cs| - 1;
    var prefix := cs[..n];
    if k < n {
      assert prefix[k] == cs[k];
      FatalPieceKills(cfg, s, prefix, k, today, asctime, parse);
    }
  }

  /** A piece holding only whitespace (a stray blank line, say) kills the loop. */
  lemma BlankPieceKills(cfg: LoopConfig, s: LoopState, lines: seq<string>, k: nat, today: string,
                        asctime: string, parse: string -> Option<Record>)
    requires k < |lines| && lines[k] != [] && AllAsciiSpace(lines[k])
    ensures LinesStep(cfg, s, Classify(lines), today, asctime, parse).crashed
  {
    FatalPieceKills(cfg, s, Classify(lines), k, today, asctime, parse);
  }

  /** The piece is only echoed, or skipped. */
  predicate Quiet(c: LineClass)
  {
    c.Skipped? || c.EchoOnly?
  }

  /** A reply without record lines and blank pieces only echoes: no loop variable changes. */
  lemma {:induction false} QuietReplyKeepsState(cfg: LoopConfig, s: LoopState, cs: seq<LineClass>, today: string,
                                                asctime: string, parse: string -> Option<Record>)
    requires forall k | 0 <= k < |cs| :: Quiet(cs[k])
    ensures var r := LinesStep(cfg, s, cs, today, asctime, parse);
      && !r.crashed && r.state.(effects := s.effects) == s
      && forall i | |s.effects| <= i < |r.state.effects| :: r.state.effects[i].Echoed?
    decreases |cs|
  {
    if cs != [] {
      var n := |cs| - 1;
      var prefix := cs[..n];
      assert forall k | 0 <= k < n :: prefix[k] == cs[k];
      QuietReplyKeepsState(cfg, s, prefix, today, asctime, parse);
      var before := LinesStep(cfg, s, prefix, today, asctime, parse);
      var r := LinesStep(cfg, s, cs, today, asctime, parse);
      assert r == LineStep(cfg, before.state, cs[n], today, asctime, parse);
      assert Quiet(cs[n]);
    }
  }

  /** The loop variables a record line sets: today's stamp and file, and the configured pause. */
  predicate Settled(cfg: LoopConfig, st: LoopState, today: string)
  {
    st.stamp == Some(today) && st.open == Some(LogFileName(cfg.root, today)) && st.localFrequency == cfg.frequency
  }

  /** After a reply holding a record line, the pause is the configured one and today's log is open. */
  lemma {:induction false} RecordSetsPause(cfg: LoopConfig, s: LoopState, cs: seq<LineClass>, k: nat, today: string,
                                           asctime: string, parse: string -> Option<Record>)
    requires k < |cs| && cs[k].RecordLine?
    ensures var r := LinesStep(cfg, s, cs, today, asctime, parse); r.crashed || Settled(cfg, r.state, today)
    decreases |cs|
  {
    var n := |cs| - 1;
    var prefix := cs[..n];
    var before := LinesStep(cfg, s, prefix, today, asctime, parse);
    var r := LinesStep(cfg, s, cs, today, asctime, parse);
    if !before.crashed {
      assert r == LineStep(cfg, before.state, cs[n], today, asctime, parse);
      if k < n {
        assert prefix[k] == cs[k];
        RecordSetsPause(cfg, s, prefix, k, today, asctime, parse);
      }
    }
  }

  /** The piece is a record line that parses. */
  predicate Parses(c: LineClass, parse: string -> Option<Record>)
  {
    c.RecordLine? && parse(c.text).Some?
  }

  /** `outputDict` after a reply the loop survives, when no piece parses: the previous value. */
  lemma {:induction false} DictKeptWithoutRecord(cfg: LoopConfig, s: LoopState, cs: seq<LineClass>, today: string,
                                                 asctime: string, parse: string -> Option<Record>)
    requires forall k | 0 <= k < |cs| :: !Parses(cs[k], parse)
    ensures var r := LinesStep(cfg, s, cs, today, asctime, parse); !r.crashed ==> r.state.dict == s.dict
    decreases |cs|
  {
    if cs != [] {
      var n := |cs| - 1;
      var prefix := cs[..n];
      assert forall k | 0 <= k < n :: prefix[k] == cs[k];
      DictKeptWithoutRecord(cfg, s, prefix, today, asctime, parse);
      assert !Parses(cs[n], parse);
    }
  }

  /**
   * `outputDict` after a reply the loop survives, when piece `k` is the
   * last that parses: that piece's record.
   */
  lemma {:induction false} DictIsLastParsed(cfg: LoopConfig, s: LoopState, cs: seq<LineClass>, k: nat, today: string,
                                            asctime: string, parse: string -> Option<Record>)
    requires k < |cs| && Parses(cs[k], parse)
    requires forall j | k < j < |cs| :: !Parses(cs[j], parse)
    ensures var r := LinesStep(cfg, s, cs, today, asctime, parse); !r.crashed ==> r.state.dict == parse(cs[k].text)
    decreases |cs|
  {
    var n := |cs| - 1;
    var prefix := cs[..n];
    var before := LinesStep(cfg, s, prefix, today, asctime, parse);
    var r := LinesStep(cfg, s, cs, today, asctime, parse);
    if !before.crashed {
      assert r == LineStep(cfg, before.state, cs[n], today, asctime, parse);
      if k < n {
        assert !Parses(cs[n], parse);
        assert prefix[k] == cs[k];
        assert forall j | k < j < n :: prefix[j] == cs[j];
        DictIsLastParsed(cfg, s, prefix, k, today, asctime, parse);
      }
    }
  }

  /** The record of the last piece that parses, or `prior` when none does. */
  function LastParsed(cs: seq<LineClass>, parse: string -> Option<Record>, prior: Option<Record>): (d: Option<Record>)
    ensures d == prior || exists k | 0 <= k < |cs| :: Parses(cs[k], parse) && d == parse(cs[k].text)
    decreases |cs|
  {
    if cs == [] then prior
    else if Parses(cs[|cs| - 1], parse) then parse(cs[|cs| - 1].text)
    else LastParsed(cs[..|cs| - 1], parse, prior)
  }

  /** `outputDict` after a reply the loop survives is the last record parsed, else the old one. */
  lemma {:induction false} LinesDict(cfg: LoopConfig, s: LoopState, cs: seq<LineClass>, today: string,
                                     asctime: string, parse: string -> Option<Record>)
    ensures var r := LinesStep(cfg, s, cs, today, asctime, parse);
      !r.crashed ==> r.state.dict == LastParsed(cs, parse, s.dict)
    decreases |cs|
  {
    if cs != [] {
      var n := |cs| - 1;
      var before := LinesStep(cfg, s, cs[..n], today, asctime, parse);
      LinesDict(cfg, s, cs[..n], today, asctime, parse);
      if !before.crashed {
        assert LinesStep(cfg, s, cs, today, asctime, parse) == LineStep(cfg, before.state, cs[n], today, asctime, parse);
      }
    }
  }

  /**
   * Once a record has been parsed, only a blank piece can kill the loop:
   * with `outputDict` bound, an unparseable record reuses the old one.
   */
  lemma {:induction false} BoundDictSurvives(cfg: LoopConfig, s: LoopState, cs: seq<LineClass>, today: string,
                                             asctime: string, parse: string -> Option<Record>)
    requires s.dict.Some?
    requires forall k | 0 <= k < |cs| :: !cs[k].IndexError?
    ensures var r := LinesStep(cfg, s, cs, today, asctime, parse); !r.crashed && r.state.dict.Some?
    decreases |cs|
  {
    if cs != [] {
      var n := |cs| - 1;
      var prefix := cs[..n];
      assert forall k | 0 <= k < n :: prefix[k] == cs[k];
      BoundDictSurvives(cfg, s, prefix, today, asctime, parse);
      var before := LinesStep(cfg, s, prefix, today, asctime, parse);
      assert LinesStep(cfg, s, cs, today, asctime, parse) == LineStep(cfg, before.state, cs[n], today, asctime, parse);
    }
  }

  /** The bridge's loop state: the variables `main` keeps across polls. */
  class Bridge {
    const logFileRoot: string
    const frequency: int
    const channelKeys: seq<string>
    /** `currentDateStamp` (None before the first record). */
    var currentDateStamp: Option<string>
    /** The file `outputStream` is open on, if any. */
    var outputStream: Option<string>
    /** `outputDict`; None while the name is still unbound. */
    var outputDict: Option<Record>
    /** The pause before the next poll. */
    var localFrequency: int
    /** The log-file effects, the echo of each piece and each payload sent, in order. */
    ghost var effects: seq<Effect>

    /** The loop variables and the trace as one value. */
    ghost function State(): LoopState
      reads this
    {
      LoopState(currentDateStamp, outputStream, outputDict, localFrequency, effects)
    }

    function Config(): LoopConfig
    {
      LoopConfig(logFileRoot, frequency, channelKeys)
    }

    ghost predicate Valid()
      reads this
    {
      Sound(Config(), State())
    }

    /** Effects from index `start` on open only the file of `today` and log only its records. */
    ghost predicate OnlyToday(start: nat, today: string)
      reads this
    {
      OnlyTodayFrom(logFileRoot, effects, start, today)
    }

    /** The state of `main` just before the polling loop. */
    constructor(logFileRoot: string, config: ConfigRecord)
      ensures Valid()
      ensures this.logFileRoot == logFileRoot
      ensures frequency == config.updateFrequency && channelKeys == config.channelKeys
      ensures currentDateStamp.None? && outputStream.None? && outputDict.None?
      ensures localFrequency == 5
      ensures effects == []
    {
      this.logFileRoot := logFileRoot;
      frequency := config.updateFrequency;
      channelKeys := config.channelKeys;
      currentDateStamp := None;
      outputStream := None;
      outputDict := None;
      localFrequency := 5;
      effects := [];
    }

    /** The date check made for each record: on a new day, close the old log and open the new one. */
    method RollOver(today: string)
      requires Valid()
      modifies this
      ensures Valid()
      ensures currentDateStamp == Some(today)
      ensures outputStream == Some(LogFileName(logFileRoot, today))
      ensures outputDict == old(outputDict) && localFrequency == old(localFrequency)
      ensures effects == old(effects) + RollEffects(logFileRoot, old(currentDateStamp), old(outputStream), today)
    {
      RollKeeps(logFileRoot, currentDateStamp, outputStream, effects, today);
      if currentDateStamp != Some(today) {
        var outputFileName := MakeOutputFileName(logFileRoot, today, today);
        effects := effects + RollEffects(logFileRoot, currentDateStamp, outputStream, today);
        currentDateStamp := Some(today);
        outputStream := Some(outputFileName);
      }
    }

    /**
     * One piece of the read buffer. `today` is the date stamp, `asctime`
     * the time of day, `parse` stands for `ast.literal_eval`. The result is
     * true when the loop dies.
     */
    method HandleLine(line: string, today: string, asctime: string, parse: string -> Option<Record>)
      returns (crashed: bool)
      requires Valid()
      modifies this
      ensures Step(State(), crashed) == LineStep(Config(), old(State()), ClassifyLineAsWritten(line), today, asctime, parse)
      ensures Valid() && OnlyToday(|old(effects)|, today)
    {
      LineStepKeeps(Config(), State(), ClassifyLineAsWritten(line), today, asctime, parse);
      if line == [] {
        return false;
      }
      var stripped := Strip(line);
      EchoKeeps(logFileRoot, currentDateStamp, outputStream, effects, stripped);
      effects := effects + [Echoed(stripped)];
      if stripped == [] {
        // `line[0]` on the empty string
        return true;
      }
      if stripped[0] != '{' {
        return false;
      }
      crashed := HandleRecord(stripped, today, asctime, parse);
    }

    /** A record line `t`, already stripped and echoed. */
    method HandleRecord(t: string, today: string, asctime: string, parse: string -> Option<Record>)
      returns (crashed: bool)
      requires Valid()
      modifies this
      ensures Step(State(), crashed) == RecordStep(Config(), old(State()), t, today, asctime, parse)
      ensures Valid() && OnlyToday(|old(effects)|, today)
    {
      RecordStepKeeps(Config(), State(), t, today, asctime, parse);
      localFrequency := frequency;
      RollOver(today);
      var parsed := parse(t);
      if parsed.Some? {
        outputDict := parsed;
      } else if outputDict.None? {
        // `print outputDict` on a name never bound
        return true;
      }
      // log the record, then `channel.update(channelDict)` when the payload was built
      effects := effects + ReportEffects(outputStream.value, today, outputDict.value, channelKeys, asctime, t);
      return false;
    }

    /**
     * One pass of the `while True` loop: ask for data, handle each piece of
     * the reply in order, then wait `localFrequency` seconds. The pass stops
     * early when a piece kills the loop.
     */
    method PollCycle(buffer: string, today: string, asctime: string, parse: string -> Option<Record>)
      returns (crashed: bool, wait: int)
      requires Valid()
      modifies this
      ensures Step(State(), crashed) == LinesStep(Config(), old(State()), Classify(SplitCrlf(buffer)), today, asctime, parse)
      ensures Valid() && OnlyToday(|old(effects)|, today)
      ensures !crashed ==> wait == localFrequency
      ensures !crashed ==> outputDict == LastParsed(Classify(SplitCrlf(buffer)), parse, old(outputDict))
    {
      var lines := SplitCrlf(buffer);
      ghost var cs := Classify(lines);
      LinesKeep(Config(), State(), cs, today, asctime, parse);
      crashed := false;
      var i := 0;
      while i < |lines| && !crashed
        invariant 0 <= i <= |lines|
        invariant Valid()
        invariant Step(State(), crashed) == LinesStep(Config(), old(State()), cs[..i], today, asctime, parse)
        decreases |lines| - i
      {
        LinesStepNext(Config(), old(State()), cs, i, today, asctime, parse);
        crashed := HandleLine(lines[i], today, asctime, parse);
        i := i + 1;
      }
      if crashed {
        CrashIsFinal(Config(), old(State()), cs, i, today, asctime, parse);
      } else {
        assert cs[..i] == cs;
      }
      LinesDict(Config(), old(State()), cs, today, asctime, parse);
      wait := localFrequency;
    }
  }

  /** One poll's worth of input: the device's reply, the date stamp and the time of day. */
  datatype Poll = Poll(buffer: string, today: string, asctime: string)

  /** One poll: the reply's pieces, classified as written, folded in order. */
  function PollStep(cfg: LoopConfig, s: LoopState, p: Poll, parse: string -> Option<Record>): Step
  {
    LinesStep(cfg, s, Classify(SplitCrlf(p.buffer)), p.today, p.asctime, parse)
  }

  /**
   * The state after a run of polls, and whether the loop died in it: each
   * poll continues from the state the previous one left, and a poll that
   * kills the loop is the last one that has any effect.
   */
  function RunPolls(cfg: LoopConfig, s: LoopState, polls: seq<Poll>, parse: string -> Option<Record>): (r: Step)
    ensures s.effects <= r.state.effects
    ensures polls == [] ==> r == Step(s, false)
    decreases |polls|
  {
    if polls == [] then Step(s, false)
    else
      var before := RunPolls(cfg, s, polls[..|polls| - 1], parse);
      if before.crashed then before
      else PollStep(cfg, before.state, polls[|polls| - 1], parse)
  }

  /** One more poll after a surviving prefix is that poll's step. */
  lemma RunPollsNext(cfg: LoopConfig, s: LoopState, polls: seq<Poll>, i: nat, parse: string -> Option<Record>)
    requires i < |polls| && !RunPolls(cfg, s, polls[..i], parse).crashed
    ensures RunPolls(cfg, s, polls[..i + 1], parse)
      == PollStep(cfg, RunPolls(cfg, s, polls[..i], parse).state, polls[i], parse)
  {
    assert polls[..i + 1][..i] == polls[..i];
  }

  /** A whole run of polls keeps the log discipline. */
  lemma {:induction false} RunPollsKeep(cfg: LoopConfig, s: LoopState, polls: seq<Poll>,
                                        parse: string -> Option<Record>)
    requires Sound(cfg, s)
    ensures Sound(cfg, RunPolls(cfg, s, polls, parse).state)
    decreases |polls|
  {
    if polls != [] {
      var n := |polls| - 1;
      var before := RunPolls(cfg, s, polls[..n], parse);
      RunPollsKeep(cfg, s, polls[..n], parse);
      if !before.crashed {
        var p := polls[n];
        LinesKeep(cfg, before.state, Classify(SplitCrlf(p.buffer)), p.today, p.asctime, parse);
      }
    }
  }

  /**
   * `main`'s `while True` over a finite run of polls: it stops at the end of
   * the run or at the poll in which a line kills the loop. The final state
   * is the fold of the polls it reached, and the log discipline holds
   * throughout, so no two days' records ever share a file.
   */
  method RunBridge(bridge: Bridge, polls: seq<Poll>, parse: string -> Option<Record>)
    returns (completed: nat, crashed: bool)
    requires bridge.Valid()
    modifies bridge
    ensures bridge.Valid()
    ensures completed <= |polls|
    ensures !crashed ==> completed == |polls|
    ensures crashed ==> completed < |polls|
    ensures Step(bridge.State(), crashed)
      == RunPolls(bridge.Config(), old(bridge.State()), polls[..if crashed then completed + 1 else completed], parse)
    ensures old(bridge.effects) <= bridge.effects
  {
    ghost var s0 := bridge.State();
    completed := 0;
    crashed := false;
    while completed < |polls| && !crashed
      invariant completed <= |polls|
      invariant crashed ==> completed < |polls|
      invariant bridge.Valid()
      invariant Step(bridge.State(), crashed)
        == RunPolls(bridge.Config(), s0, polls[..if crashed then completed + 1 else completed], parse)
      invariant old(bridge.effects) <= bridge.effects
      decreases |polls| - completed, if crashed then 0 else 1
    {
      RunPollsNext(bridge.Config(), s0, polls, completed, parse);
      var poll := polls[completed];
      var wait;
      crashed, wait := bridge.PollCycle(poll.buffer, poll.today, poll.asctime, parse);
      if !crashed {
        completed := completed + 1;
      }
    }
  }
}
