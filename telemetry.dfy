/**
 * The deterministic rules of temp_to_thing_speak.py, the bridge that polls
 * a sensor board over a serial line, logs each record to a file per day and
 * forwards it to a numbered-channel metrics service: the mode table, the
 * log-file name, which lines are records, the channel payload, banner-based
 * identity resolution and the configuration lookup, plus the discipline of
 * the log-file trace that the polling loop keeps.
 */
module Telemetry {
  import opened Wrappers
  import opened PyStr

  // ---------------------------------------------------------------------
  // Mode table
  // ---------------------------------------------------------------------

  /** The mode letters in the order of their codes. */
  const ModeLetters: string := "OBENPMD"

  /** `modeMap`. */
  const ModeMap: map<char, nat> := map['O' := 0, 'B' := 1, 'E' := 2, 'N' := 3, 'P' := 4, 'M' := 5, 'D' := 6]

  /** Each letter's code is its position in "OBENPMD", so no two letters share a code. */
  lemma ModeMapIsPositional()
    ensures ModeMap.Keys == set i | 0 <= i < |ModeLetters| :: ModeLetters[i]
    ensures forall i | 0 <= i < |ModeLetters| :: ModeMap[ModeLetters[i]] == i
    ensures forall a, b | a in ModeMap && b in ModeMap && a != b :: ModeMap[a] != ModeMap[b]
  {
    forall i | 0 <= i < |ModeLetters| ensures ModeMap[ModeLetters[i]] == i {
      assert ModeLetters[i] == "OBENPMD"[i];
    }
    assert forall c | c in ModeMap :: ModeLetters[ModeMap[c]] == c;
  }

  // ---------------------------------------------------------------------
  // Parsed records
  // ---------------------------------------------------------------------

  /** A literal value `ast.literal_eval` can produce: a number, a string or a list. */
  datatype Value = Num(x: real) | Text(s: string) | Items(elems: seq<Value>)

  /** A parsed record line: a dictionary keyed by field name. */
  type Record = map<string, Value>

  /** Python's `v[0]`: the first element of a list or the first character of a string. */
  function Index0(v: Value): (r: Option<Value>)
    ensures r.Some? <==> (v.Items? && v.elems != []) || (v.Text? && v.s != [])
    ensures v.Items? && v.elems != [] ==> r == Some(v.elems[0])
    ensures v.Text? && v.s != [] ==> r == Some(Text([v.s[0]]))
  {
    match v
    case Items(elems) => if elems == [] then None else Some(elems[0])
    case Text(s) => if s == [] then None else Some(Text([s[0]]))
    case Num(_) => None
  }

  /** `modeMap[v]`: only a one-letter string naming a mode has a code. */
  function ModeOf(v: Value): (code: Option<nat>)
    ensures code.Some? <==> v.Text? && |v.s| == 1 && v.s[0] in ModeLetters
    ensures code.Some? ==> code.value < |ModeLetters| && ModeLetters[code.value] == v.s[0]
  {
    ModeMapIsPositional();
    if v.Text? && |v.s| == 1 && v.s[0] in ModeMap then Some(ModeMap[v.s[0]]) else None
  }

  // ---------------------------------------------------------------------
  // Log file name
  // ---------------------------------------------------------------------

  /**
   * `makeOutputFileName(logFileRoot, dateStamp)`: the `dateStamp` argument
   * is ignored; the stamp used is `now`, the clock's date at the call.
   */
  function MakeOutputFileName(logFileRoot: string, dateStamp: string, now: string): (name: string)
    ensures |name| == |logFileRoot| + |now| + 5
    ensures name[..|logFileRoot|] == logFileRoot && name[|logFileRoot|] == '.'
    ensures name[|logFileRoot| + 1..|logFileRoot| + 1 + |now|] == now
    ensures name[|logFileRoot| + 1 + |now|..] == ".log"
  {
    logFileRoot + "." + now + ".log"
  }

  /** The log file of day `day`. */
  function LogFileName(logFileRoot: string, day: string): string
  {
    MakeOutputFileName(logFileRoot, day, day)
  }

  /** With one root, different days never share a log file. */
  lemma LogFileNameInjective(root: string, d1: string, d2: string)
    ensures LogFileName(root, d1) == LogFileName(root, d2) ==> d1 == d2
  {
    var n1, n2 := LogFileName(root, d1), LogFileName(root, d2);
    if n1 == n2 {
      assert |d1| == |d2|;
      assert d1 == n1[|root| + 1..|root| + 1 + |d1|];
    }
  }

  // ---------------------------------------------------------------------
  // Record-line selection
  // ---------------------------------------------------------------------

  /** What the polling loop does with one piece of the read buffer. */
  datatype LineClass =
    | Skipped                 // empty: not even echoed
    | EchoOnly(text: string)  // echoed, nothing else
    | RecordLine(text: string)  // echoed and handled as a record
    | IndexError              // `line[0]` on an empty string: the loop dies

  /**
   * AS WRITTEN (temp_to_thing_speak.py:211-214): the emptiness test runs
   * before `strip()`, and `line[0]` after it, so a line of whitespace only
   * reaches `line[0]` with nothing left to index.
   */
  function ClassifyLineAsWritten(line: string): (c: LineClass)
    ensures c.Skipped? <==> line == []
    ensures c.IndexError? <==> line != [] && AllAsciiSpace(line)
    ensures c.EchoOnly? || c.RecordLine? ==> c.text == Strip(line) && c.text != []
  {
    if line == [] then Skipped
    else
      var t := Strip(line);
      if t == [] then IndexError
      else if t[0] == '{' then RecordLine(t)
      else EchoOnly(t)
  }

  /** As written, a piece is a record exactly when its first non-whitespace character is '{'. */
  lemma RecordLineAsWritten(line: string)
    ensures ClassifyLineAsWritten(line).RecordLine? <==>
      exists k | 0 <= k < |line| :: FirstNonSpaceAt(line, k) && line[k] == '{'
  {
    var t := Strip(line);
    if t != [] {
      var k :| 0 <= k < |line| && FirstNonSpaceAt(line, k) && t[0] == line[k];
      forall j | 0 <= j < |line| && FirstNonSpaceAt(line, j) ensures j == k {
        FirstNonSpaceUnique(line, j, k);
      }
    }
  }

  /**
   * Line selection with blank lines skipped: a line is a record exactly when
   * its first non-whitespace character is '{'.
   */
  function ClassifyLine(line: string): (c: LineClass)
    ensures !c.IndexError?
    ensures c.Skipped? <==> AllAsciiSpace(line)
    ensures c.RecordLine? <==> exists k | 0 <= k < |line| :: FirstNonSpaceAt(line, k) && line[k] == '{'
    ensures c.EchoOnly? || c.RecordLine? ==> c.text == Strip(line)
  {
    var t := Strip(line);
    if t == [] then Skipped
    else
      var k :| 0 <= k < |line| && FirstNonSpaceAt(line, k) && t[0] == line[k];
      forall j | 0 <= j < |line| && FirstNonSpaceAt(line, j) ensures j == k {
        FirstNonSpaceUnique(line, j, k);
      }
      if t[0] == '{' then RecordLine(t) else EchoOnly(t)
  }

  /** The two agree on every line except one made of whitespace only. */
  lemma ClassifyAgreesExceptBlank(line: string)
    ensures ClassifyLineAsWritten(line) == ClassifyLine(line) <==> !(line != [] && AllAsciiSpace(line))
    ensures line != [] && AllAsciiSpace(line) ==> ClassifyLineAsWritten(line) == IndexError
  {
  }

  /** Counterexample: a buffer piece holding one space kills the loop as written. */
  lemma BlankLineCrashes()
    ensures ClassifyLineAsWritten(" ") == IndexError
    ensures ClassifyLine(" ") == Skipped
  {
    assert AllAsciiSpace(" ");
  }

  // ---------------------------------------------------------------------
  // Channel payload
  // ---------------------------------------------------------------------

  /** What `channel.update` is given: channels 1 to 8 and the status text. */
  datatype Payload = Payload(channels: map<int, Value>, status: string)

  /** Every lookup the payload needs succeeds. */
  predicate PayloadDefined(rec: Record, channelKeys: seq<string>)
  {
    && |channelKeys| >= 4
    && (forall i | 0 <= i < 4 :: channelKeys[i] in rec && Index0(rec[channelKeys[i]]).Some?)
    && "v" in rec && "p" in rec && "lN" in rec
    && "m" in rec && ModeOf(rec["m"]).Some?
  }

  /** Channels 1 to 8 holding `vals`, in order. */
  function Channels(vals: seq<Value>): (channels: map<int, Value>)
    requires |vals| == 8
    ensures forall c :: c in channels <==> 1 <= c <= 8
    ensures forall c | 1 <= c <= 8 :: channels[c] == vals[c - 1]
  {
    map[1 := vals[0], 2 := vals[1], 3 := vals[2], 4 := vals[3],
        5 := vals[4], 6 := vals[5], 7 := vals[6], 8 := vals[7]]
  }

  /**
   * `channelDict`: channels 1 to 4 are the first elements of the fields the
   * configuration names, 5 is `v`, 6 is `p`, 7 the code of mode `m`, 8 is
   * `lN`; `status` is the time of day, a space and the raw line. Any failed
   * lookup fails the whole payload.
   */
  /**
   * What a payload built from `rec` carries: channels 1-4 are the first
   * elements of the four configured fields, 5 is v, 6 is p, 7 the mode code
   * of m, 8 is lN, and the status is the time, a space and the line.
   */
  ghost predicate Carries(rec: Record, channelKeys: seq<string>, asctime: string, line: string, q: Payload)
    requires PayloadDefined(rec, channelKeys)
  {
    && (forall c :: c in q.channels <==> 1 <= c <= 8)
    && (forall c | 1 <= c <= 4 :: Index0(rec[channelKeys[c - 1]]) == Some(q.channels[c]))
    && q.channels[5] == rec["v"] && q.channels[6] == rec["p"]
    && q.channels[7] == Num(ModeOf(rec["m"]).value as real)
    && q.channels[8] == rec["lN"]
    && q.status == asctime + " " + line
  }

  function BuildPayload(rec: Record, channelKeys: seq<string>, asctime: string, line: string)
    : (p: Option<Payload>)
    ensures p.Some? <==> PayloadDefined(rec, channelKeys)
    ensures p.Some? ==> Carries(rec, channelKeys, asctime, line, p.value)
  {
    if !PayloadDefined(rec, channelKeys) then None
    else
      var vals := [Index0(rec[channelKeys[0]]).value, Index0(rec[channelKeys[1]]).value,
                   Index0(rec[channelKeys[2]]).value, Index0(rec[channelKeys[3]]).value,
                   rec["v"], rec["p"], Num(ModeOf(rec["m"]).value as real), rec["lN"]];
      Some(Payload(Channels(vals), asctime + " " + line))
  }

  /**
   * The worked example: keys a, b, c, d and the record
   * {a:[1], b:[2], c:[3], d:[4], v:1, p:1, m:'O', lN:1}.
   */
  lemma PayloadExample(asctime: string, line: string)
    ensures var rec := map["a" := Items([Num(1.0)]), "b" := Items([Num(2.0)]), "c" := Items([Num(3.0)]),
                           "d" := Items([Num(4.0)]), "v" := Num(1.0), "p" := Num(1.0),
                           "m" := Text("O"), "lN" := Num(1.0)];
      var p := BuildPayload(rec, ["a", "b", "c", "d"], asctime, line);
      && p.Some?
      && p.value.channels[1] == Num(1.0) && p.value.channels[2] == Num(2.0)
      && p.value.channels[3] == Num(3.0) && p.value.channels[4] == Num(4.0)
      && p.value.channels[5] == Num(1.0) && p.value.channels[6] == Num(1.0)
      && p.value.channels[7] == Num(0.0) && p.value.channels[8] == Num(1.0)
      && p.value.status == asctime + " " + line
  {
    var rec := map["a" := Items([Num(1.0)]), "b" := Items([Num(2.0)]), "c" := Items([Num(3.0)]),
                   "d" := Items([Num(4.0)]), "v" := Num(1.0), "p" := Num(1.0),
                   "m" := Text("O"), "lN" := Num(1.0)];
    var keys := ["a", "b", "c", "d"];
    assert ModeOf(Text("O")) == Some(0);
    assert rec["a"] == Items([Num(1.0)]) && rec["b"] == Items([Num(2.0)]);
    assert rec["c"] == Items([Num(3.0)]) && rec["d"] == Items([Num(4.0)]);
    assert rec["v"] == Num(1.0) && rec["p"] == Num(1.0);
    assert rec["m"] == Text("O") && rec["lN"] == Num(1.0);
    assert PayloadDefined(rec, keys);
  }

  /** A mode letter outside the table, or a missing field, means no update is sent. */
  lemma PayloadNeedsKnownMode(rec: Record, channelKeys: seq<string>, asctime: string, line: string)
    requires "m" !in rec || ModeOf(rec["m"]).None? || "v" !in rec || "p" !in rec || "lN" !in rec
    ensures BuildPayload(rec, channelKeys, asctime, line).None?
  {
  }

  // ---------------------------------------------------------------------
  // Identity resolution (getIdKey)
  // ---------------------------------------------------------------------

  /** Identification attempts `getIdKey` makes at most. */
  const MaxIdAttempts: nat := 5

  /**
   * The value of the first banner, in the map's iteration order, that occurs
   * in `line`: the inner loop of `getIdKey` breaks at the first hit.
   */
  function MatchBanner(line: string, bannerToKeyMap: seq<(string, string)>): (r: Option<string>)
    ensures r.Some? <==> exists m | 0 <= m < |bannerToKeyMap| :: Contains(line, bannerToKeyMap[m].0)
    ensures r.Some? ==> exists m | 0 <= m < |bannerToKeyMap| ::
      Contains(line, bannerToKeyMap[m].0) && bannerToKeyMap[m].1 == r.value
    decreases |bannerToKeyMap|
  {
    if bannerToKeyMap == [] then None
    else if Contains(line, bannerToKeyMap[0].0) then Some(bannerToKeyMap[0].1)
    else
      var r := MatchBanner(line, bannerToKeyMap[1..]);
      assert forall m | 1 <= m < |bannerToKeyMap| :: bannerToKeyMap[m] == bannerToKeyMap[1..][m - 1];
      r
  }

  /**
   * `idKey` after the lines of one reply: every non-empty line that holds a
   * banner sets it, so the last such line wins.
   */
  function ScanLines(lines: seq<string>, bannerToKeyMap: seq<(string, string)>, idKey: string): (r: string)
    ensures r == idKey || exists m | 0 <= m < |bannerToKeyMap| :: bannerToKeyMap[m].1 == r
    decreases |lines|
  {
    if lines == [] then idKey
    else
      var before := ScanLines(lines[..|lines| - 1], bannerToKeyMap, idKey);
      var line := lines[|lines| - 1];
      if line == [] then before
      else match MatchBanner(line, bannerToKeyMap)
        case Some(key) => key
        case None => before
  }

  /**
   * `idKey` after one attempt per reply: an attempt is made only while
   * `idKey` is still unset (`""` stands for Python's falsy `None`).
   */
  function IdentifyAfter(bannerToKeyMap: seq<(string, string)>, replies: seq<string>): (r: string)
    ensures r == "" || exists m | 0 <= m < |bannerToKeyMap| :: bannerToKeyMap[m].1 == r
    decreases |replies|
  {
    if replies == [] then ""
    else
      var before := IdentifyAfter(bannerToKeyMap, replies[..|replies| - 1]);
      if before != "" then before
      else ScanLines(SplitCrlf(replies[|replies| - 1]), bannerToKeyMap, before)
  }

  /** Identification queries sent to the device over those attempts. */
  function QueriesAfter(bannerToKeyMap: seq<(string, string)>, replies: seq<string>): (q: nat)
    ensures replies != [] ==> 1 <= q
    decreases |replies|
  {
    if replies == [] then 0
    else
      var n := |replies| - 1;
      QueriesAfter(bannerToKeyMap, replies[..n]) + (if IdentifyAfter(bannerToKeyMap, replies[..n]) == "" then 1 else 0)
  }

  /** Once an identity is found, later attempts change nothing and query nothing. */
  lemma {:induction false} IdentityStable(bannerToKeyMap: seq<(string, string)>, replies: seq<string>, i: nat)
    requires i <= |replies| && IdentifyAfter(bannerToKeyMap, replies[..i]) != ""
    ensures IdentifyAfter(bannerToKeyMap, replies) == IdentifyAfter(bannerToKeyMap, replies[..i])
    ensures QueriesAfter(bannerToKeyMap, replies) == QueriesAfter(bannerToKeyMap, replies[..i])
    decreases |replies|
  {
    if i < |replies| {
      var before := replies[..|replies| - 1];
      assert IdentifyAfter(bannerToKeyMap, before) == IdentifyAfter(bannerToKeyMap, replies[..i])
          && QueriesAfter(bannerToKeyMap, before) == QueriesAfter(bannerToKeyMap, replies[..i]) by {
        assert before[..i] == replies[..i];
        IdentityStable(bannerToKeyMap, before, i);
      }
      IdentifiedStep(bannerToKeyMap, replies);
    } else {
      assert replies[..i] == replies;
    }
  }

  /** One more reply after an identity is found changes nothing and queries nothing. */
  lemma IdentifiedStep(bannerToKeyMap: seq<(string, string)>, replies: seq<string>)
    requires replies != [] && IdentifyAfter(bannerToKeyMap, replies[..|replies| - 1]) != ""
    ensures IdentifyAfter(bannerToKeyMap, replies) == IdentifyAfter(bannerToKeyMap, replies[..|replies| - 1])
    ensures QueriesAfter(bannerToKeyMap, replies) == QueriesAfter(bannerToKeyMap, replies[..|replies| - 1])
  {
  }

  /** At most one query per attempt, and every attempt queries while nothing is found. */
  lemma {:induction false} QueriesBound(bannerToKeyMap: seq<(string, string)>, replies: seq<string>)
    ensures QueriesAfter(bannerToKeyMap, replies) <= |replies|
    ensures IdentifyAfter(bannerToKeyMap, replies) == "" ==> QueriesAfter(bannerToKeyMap, replies) == |replies|
    decreases |replies|
  {
    if replies != [] {
      var n := |replies| - 1;
      QueriesBound(bannerToKeyMap, replies[..n]);
    }
  }

  /** Banner `banner` occurs in a non-empty line of `reply`. */
  predicate BannerInReply(banner: string, reply: string)
  {
    var lines := SplitCrlf(reply);
    exists l | 0 <= l < |lines| :: lines[l] != [] && Contains(lines[l], banner)
  }

  /** Some banner of the map occurs in some non-empty line of some reply. */
  predicate AnyBannerSeen(bannerToKeyMap: seq<(string, string)>, replies: seq<string>)
  {
    exists r, m | 0 <= r < |replies| && 0 <= m < |bannerToKeyMap| :: BannerInReply(bannerToKeyMap[m].0, replies[r])
  }

  /** No key of the map is the empty string. */
  predicate KeysNonEmpty(bannerToKeyMap: seq<(string, string)>)
  {
    forall m | 0 <= m < |bannerToKeyMap| :: bannerToKeyMap[m].1 != ""
  }

  /** Scanning lines with non-empty keys finds a key exactly when some line holds a banner. */
  lemma {:induction false} ScanFindsIffSeen(lines: seq<string>, bannerToKeyMap: seq<(string, string)>)
    requires KeysNonEmpty(bannerToKeyMap)
    ensures ScanLines(lines, bannerToKeyMap, "") != "" <==>
      exists l, m | 0 <= l < |lines| && 0 <= m < |bannerToKeyMap| ::
        lines[l] != [] && Contains(lines[l], bannerToKeyMap[m].0)
    decreases |lines|
  {
    if lines != [] {
      var n := |lines| - 1;
      ScanFindsIffSeen(lines[..n], bannerToKeyMap);
      assert forall l | 0 <= l < n :: lines[..n][l] == lines[l];
    }
  }

  /**
   * With non-empty keys, identification fails exactly when no banner of the
   * map occurs in any non-empty line of any reply.
   */
  lemma {:induction false} NoIdentityIffNoBanner(bannerToKeyMap: seq<(string, string)>, replies: seq<string>)
    requires KeysNonEmpty(bannerToKeyMap)
    ensures IdentifyAfter(bannerToKeyMap, replies) == "" <==> !AnyBannerSeen(bannerToKeyMap, replies)
    decreases |replies|
  {
    if replies != [] {
      var n := |replies| - 1;
      NoIdentityIffNoBanner(bannerToKeyMap, replies[..n]);
      ScanFindsIffSeen(SplitCrlf(replies[n]), bannerToKeyMap);
      assert forall r | 0 <= r < n :: replies[..n][r] == replies[r];
      if AnyBannerSeen(bannerToKeyMap, replies) && !AnyBannerSeen(bannerToKeyMap, replies[..n]) {
        var r, m :| 0 <= r < |replies| && 0 <= m < |bannerToKeyMap| && BannerInReply(bannerToKeyMap[m].0, replies[r]);
        assert r == n;
      }
    }
  }

  /** A found key is the key of some banner that occurs in a line of some reply. */
  lemma {:induction false} IdentityComesFromBanner(bannerToKeyMap: seq<(string, string)>, replies: seq<string>)
    requires IdentifyAfter(bannerToKeyMap, replies) != ""
    ensures exists r, m | 0 <= r < |replies| && 0 <= m < |bannerToKeyMap| ::
      BannerInReply(bannerToKeyMap[m].0, replies[r]) && bannerToKeyMap[m].1 == IdentifyAfter(bannerToKeyMap, replies)
    decreases |replies|
  {
    var n := |replies| - 1;
    var before := IdentifyAfter(bannerToKeyMap, replies[..n]);
    if before != "" {
      IdentityComesFromBanner(bannerToKeyMap, replies[..n]);
      var r, m :| 0 <= r < n && 0 <= m < |bannerToKeyMap|
        && BannerInReply(bannerToKeyMap[m].0, replies[..n][r]) && bannerToKeyMap[m].1 == before;
      assert replies[..n][r] == replies[r];
    } else {
      var m := ScanKeyFromLine(SplitCrlf(replies[n]), bannerToKeyMap);
      assert BannerInReply(bannerToKeyMap[m].0, replies[n]);
    }
  }

  /** A key a scan from nothing produces comes from a banner in one of the lines. */
  lemma {:induction false} ScanKeyFromLine(lines: seq<string>, bannerToKeyMap: seq<(string, string)>) returns (m: nat)
    requires ScanLines(lines, bannerToKeyMap, "") != ""
    ensures m < |bannerToKeyMap| && bannerToKeyMap[m].1 == ScanLines(lines, bannerToKeyMap, "")
    ensures exists l | 0 <= l < |lines| :: lines[l] != [] && Contains(lines[l], bannerToKeyMap[m].0)
    decreases |lines|
  {
    var n := |lines| - 1;
    var line := lines[n];
    if line != [] && MatchBanner(line, bannerToKeyMap).Some? {
      m :| 0 <= m < |bannerToKeyMap| && Contains(line, bannerToKeyMap[m].0)
        && bannerToKeyMap[m].1 == MatchBanner(line, bannerToKeyMap).value;
    } else {
      m := ScanKeyFromLine(lines[..n], bannerToKeyMap);
      var l :| 0 <= l < n && lines[..n][l] != [] && Contains(lines[..n][l], bannerToKeyMap[m].0);
      assert lines[..n][l] == lines[l];
    }
  }

  // ---------------------------------------------------------------------
  // Configuration
  // ---------------------------------------------------------------------

  /** One identity's entry of the configuration file. */
  datatype ConfigRecord = ConfigRecord(channelId: string, writeKey: string,
                                       updateFrequency: int, channelKeys: seq<string>)

  /**
   * The configuration dictionary: its `bannerToKeyMap` entry (absent or a
   * banner-to-key map in iteration order) and the records under every
   * other key.
   */
  datatype ConfigData = ConfigData(bannerToKeyMap: Option<seq<(string, string)>>,
                                   records: map<string, ConfigRecord>)

  datatype ConfigError =
    | NoBannerMap                   // KeyError on `dataDict["bannerToKeyMap"]`
    | NoIdentity                    // `assert idKey` in getIdKey
    | UnknownIdentity(idKey: string)  // `assert dataDict.has_key(idKey)`

  // ---------------------------------------------------------------------
  // The log-file trace of the polling loop
  // ---------------------------------------------------------------------

  /** What the polling loop does to the outside world. */
  datatype Effect =
    | Opened(file: string)                          // open(name, 'a')
    | Closed(file: string)                          // outputStream.close()
    | Wrote(file: string, day: string, entry: Record)  // print >>outputStream + flush
    | Echoed(text: string)                          // print line
    | Sent(payload: Payload)                        // channel.update(channelDict)

  /** The file open after a trace, if any. */
  function OpenAfter(trace: seq<Effect>): Option<string>
    decreases |trace|
  {
    if trace == [] then None
    else
      var before := OpenAfter(trace[..|trace| - 1]);
      match trace[|trace| - 1]
      case Opened(f) => Some(f)
      case Closed(_) => None
      case _ => before
  }

  /** Whether effect `e` may follow when `open` is the open file. */
  predicate Allowed(open: Option<string>, e: Effect)
  {
    match e
    case Opened(_) => open.None?
    case Closed(f) => open == Some(f)
    case Wrote(f, _, _) => open == Some(f)
    case _ => true
  }

  /**
   * One stream at a time: a file is opened only when none is open, closed
   * only while it is the open one, and written only while open.
   */
  predicate Disciplined(trace: seq<Effect>)
    decreases |trace|
  {
    trace == [] ||
    (Disciplined(trace[..|trace| - 1]) && Allowed(OpenAfter(trace[..|trace| - 1]), trace[|trace| - 1]))
  }

  /** Every write goes to the log file of the record's own day. */
  predicate WritesMatchDates(root: string, trace: seq<Effect>)
  {
    forall i | 0 <= i < |trace| && trace[i].Wrote? :: trace[i].file == LogFileName(root, trace[i].day)
  }

  /** Appending one effect to a trace. */
  lemma TraceAppend(trace: seq<Effect>, e: Effect)
    ensures OpenAfter(trace + [e]) == match e
      case Opened(f) => Some(f)
      case Closed(_) => None
      case _ => OpenAfter(trace)
    ensures Disciplined(trace + [e]) <==> Disciplined(trace) && Allowed(OpenAfter(trace), e)
  {
    assert (trace + [e])[..|trace|] == trace;
  }

  /** Every effect of a disciplined trace was allowed where it happened. */
  lemma {:induction false} DisciplinedAt(trace: seq<Effect>, i: nat)
    requires Disciplined(trace) && i < |trace|
    ensures Disciplined(trace[..i]) && Allowed(OpenAfter(trace[..i]), trace[i])
    decreases |trace|
  {
    var n := |trace| - 1;
    if i < n {
      DisciplinedAt(trace[..n], i);
      assert trace[..n][..i] == trace[..i];
    }
  }

  /**
   * The stream of one day is closed before the next day's is opened: in a
   * disciplined trace a second `Opened` needs a `Closed` of the first file
   * in between.
   */
  lemma {:induction false} ClosedBeforeReopen(trace: seq<Effect>, i: nat, j: nat)
    requires Disciplined(trace) && i < j < |trace|
    requires trace[i].Opened? && trace[j].Opened?
    ensures exists k | i < k < j :: trace[k] == Closed(trace[i].file)
    decreases j - i
  {
    DisciplinedAt(trace, j);
    OpenAfterFrom(trace, i, j);
  }

  /**
   * From an `Opened(f)` at `i` on, the open file stays `f` until a
   * `Closed(f)` happens.
   */
  lemma {:induction false} OpenAfterFrom(trace: seq<Effect>, i: nat, j: nat)
    requires Disciplined(trace) && i < j <= |trace| && trace[i].Opened?
    ensures OpenAfter(trace[..j]) == Some(trace[i].file) ||
      exists k | i < k < j :: trace[k] == Closed(trace[i].file)
    decreases j - i
  {
    var f := trace[i].file;
    if j == i + 1 {
      assert trace[..j] == trace[..i] + [trace[i]];
      TraceAppend(trace[..i], trace[i]);
    } else {
      OpenAfterFrom(trace, i, j - 1);
      assert trace[..j] == trace[..j - 1] + [trace[j - 1]];
      TraceAppend(trace[..j - 1], trace[j - 1]);
      if OpenAfter(trace[..j - 1]) == Some(f) {
        DisciplinedAt(trace, j - 1);
      }
    }
  }

  /**
   * Records of two different days never land in one file: each day's file
   * holds only that day's records.
   */
  lemma DifferentDaysDifferentFiles(root: string, trace: seq<Effect>, i: nat, j: nat)
    requires WritesMatchDates(root, trace)
    requires i < |trace| && j < |trace| && trace[i].Wrote? && trace[j].Wrote?
    requires trace[i].day != trace[j].day
    ensures trace[i].file != trace[j].file
  {
    LogFileNameInjective(root, trace[i].day, trace[j].day);
  }
}
