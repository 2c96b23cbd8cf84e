/**
 * The session controller of talkToScreen.py: a `TalkToScreen` object that
 * names a detached `screen` session, tests whether it is running by
 * searching the output of `screen -ls`, starts it, and types commands into
 * it with `screen -S <name> -X stuff <text>`.
 *
 * The external `screen` program is not modelled. Each existence check takes
 * the listing text `screen -ls` printed at that moment as an input, and every
 * operation returns the argument vectors it hands to `call`, `check_call` or
 * `check_output`, in the order it issues them.
 */
module ScreenControl {
  import opened Wrappers
  import opened PyStr

  /** `TalkToScreen.historyLengthDefault`: lines of scroll-back for a new session. */
  const HistoryLengthDefault: nat := 5000

  /** The vector `getScreenList` runs to list every session. */
  const ListVector: seq<string> := ["screen", "-ls"]

  // ---------------------------------------------------------------------
  // Existence test: `re.search('\d+\.' + name, line)` over the listing
  // ---------------------------------------------------------------------

  /** One or more digits at `line[p..q]`, a '.' at `q`, then `name`. */
  predicate SessionMatchAt(line: string, name: string, p: int, q: int)
  {
    0 <= p < q && q + 1 + |name| <= |line|
    && (forall i | p <= i < q :: IsDigit(line[i]))
    && line[q] == '.' && line[q + 1..q + 1 + |name|] == name
  }

  /** The pattern `\d+\.<name>` occurs somewhere in `line` (the name taken literally). */
  ghost predicate SessionMatch(line: string, name: string)
  {
    exists p, q :: SessionMatchAt(line, name, p, q)
  }

  /** A single digit, a '.', and the name, starting at the first character. */
  predicate SessionAtHead(s: string, name: string)
  {
    |s| >= 2 + |name| && IsDigit(s[0]) && s[1] == '.' && name <= s[2..]
  }

  /** The search `re.search` performs, one start position after another. */
  predicate SearchSession(line: string, name: string)
    decreases |line|
  {
    SessionAtHead(line, name) || (|line| > 0 && SearchSession(line[1..], name))
  }

  lemma {:induction false} SearchFindsAt(line: string, name: string, k: nat)
    requires k + 2 + |name| <= |line| && IsDigit(line[k]) && line[k + 1] == '.'
    requires line[k + 2..k + 2 + |name|] == name
    ensures SearchSession(line, name)
    decreases k
  {
    if k > 0 {
      SearchFindsAt(line[1..], name, k - 1);
    }
  }

  lemma {:induction false} SearchFoundAt(line: string, name: string) returns (k: nat)
    requires SearchSession(line, name)
    ensures k + 2 + |name| <= |line| && IsDigit(line[k]) && line[k + 1] == '.'
    ensures line[k + 2..k + 2 + |name|] == name
    decreases |line|
  {
    if SessionAtHead(line, name) {
      k := 0;
    } else {
      var j := SearchFoundAt(line[1..], name);
      k := j + 1;
      assert line[k + 2..k + 2 + |name|] == line[1..][j + 2..j + 2 + |name|];
    }
  }

  /**
   * The scan agrees with the regular expression: although `\d+` may match
   * several digits, a match exists exactly when a single digit, a '.' and
   * the name occur together.
   */
  lemma SearchSessionIsRegexSearch(line: string, name: string)
    ensures SearchSession(line, name) <==> SessionMatch(line, name)
  {
    if SearchSession(line, name) {
      var k := SearchFoundAt(line, name);
      assert SessionMatchAt(line, name, k, k + 1);
    }
    if SessionMatch(line, name) {
      var p, q :| SessionMatchAt(line, name, p, q);
      SearchFindsAt(line, name, q - 1);
    }
  }

  /** Some line of the listing passes the search: what `screenAlreadyRunning` decides. */
  predicate SessionListed(listing: string, name: string)
  {
    var lines := SplitLines(listing);
    exists i | 0 <= i < |lines| :: SearchSession(lines[i], name)
  }

  /** A session is listed exactly when `\d+\.<name>` occurs in some line of the listing. */
  lemma SessionListedIsLineMatch(listing: string, name: string)
    ensures SessionListed(listing, name) ==>
      exists i | 0 <= i < |SplitLines(listing)| :: SessionMatch(SplitLines(listing)[i], name)
    ensures (exists i | 0 <= i < |SplitLines(listing)| :: SessionMatch(SplitLines(listing)[i], name)) ==>
      SessionListed(listing, name)
  {
    var lines := SplitLines(listing);
    if SessionListed(listing, name) {
      var i :| 0 <= i < |lines| && SearchSession(lines[i], name);
      SearchSessionIsRegexSearch(lines[i], name);
    } else {
      forall i | 0 <= i < |lines|
        ensures !SessionMatch(lines[i], name)
      {
        SearchSessionIsRegexSearch(lines[i], name);
      }
    }
  }

  predicate NoLineBreak(name: string)
  {
    forall i | 0 <= i < |name| :: !IsLineBreak(name[i])
  }

  /**
   * Splitting the listing into lines changes nothing for a name without
   * line breaks: the session is listed exactly when `\d+\.<name>` occurs in
   * the listing text as a whole, the substring semantics of the check.
   */
  lemma {:induction false} ListedIffTextMatches(listing: string, name: string)
    requires NoLineBreak(name)
    ensures SessionListed(listing, name) <==> SearchSession(listing, name)
    decreases |listing|
  {
    var s := listing;
    if |s| == 0 {
    } else if IsLineBreak(s[0]) {
      var skip := if s[0] == '\r' && |s| > 1 && s[1] == '\n' then 2 else 1;
      ListedIffTextMatches(s[skip..], name);
      ListedAfterBreak(s, skip, name);
      if skip == 2 {
        assert s[1..][1..] == s[2..];
        assert !SessionAtHead(s[1..], name);
      }
    } else {
      ListedIffTextMatches(s[1..], name);
      ListedAfterChar(s, name);
    }
  }

  /** A listing that starts with a line break begins with an empty line. */
  lemma ListedAfterBreak(s: string, skip: nat, name: string)
    requires |s| > 0 && IsLineBreak(s[0])
    requires skip == if s[0] == '\r' && |s| > 1 && s[1] == '\n' then 2 else 1
    ensures SessionListed(s, name) <==> SessionListed(s[skip..], name)
  {
    var lines := SplitLines(s);
    var tail := SplitLines(s[skip..]);
    assert lines == [""] + tail;
    assert !SearchSession("", name);
    if SessionListed(s, name) {
      var i :| 0 <= i < |lines| && SearchSession(lines[i], name);
      assert i > 0 && lines[i] == tail[i - 1];
    }
    if SessionListed(s[skip..], name) {
      var i :| 0 <= i < |tail| && SearchSession(tail[i], name);
      assert lines[i + 1] == tail[i];
    }
  }

  /** A listing that starts with an ordinary character extends its first line. */
  lemma ListedAfterChar(s: string, name: string)
    requires |s| > 0 && !IsLineBreak(s[0]) && NoLineBreak(name)
    ensures SessionListed(s, name) <==> SessionAtHead(s, name) || SessionListed(s[1..], name)
  {
    var lines := SplitLines(s);
    var rest := SplitLines(s[1..]);
    FirstLineIsPrefix(s[1..]);
    if rest == [] {
      assert lines == [[s[0]]];
      assert !SearchSession([s[0]][1..], name);
      assert |s| == 1;
    } else {
      var head := [s[0]] + rest[0];
      assert lines == [head] + rest[1..];
      assert head[1..] == rest[0];
      HeadMatchAgrees(s, rest[0], name);
      if SessionListed(s, name) {
        var i :| 0 <= i < |lines| && SearchSession(lines[i], name);
        if i > 0 { assert lines[i] == rest[i]; }
      }
      if SessionListed(s[1..], name) {
        var i :| 0 <= i < |rest| && SearchSession(rest[i], name);
        if i > 0 { assert lines[i] == rest[i]; } else { assert SearchSession(head, name); }
      }
      if SessionAtHead(s, name) {
        assert SearchSession(lines[0], name);
      }
    }
  }

  /** The first line of a listing runs up to (not including) its first line break. */
  lemma {:induction false} FirstLineIsPrefix(s: string)
    ensures var lines := SplitLines(s);
      lines != [] ==> lines[0] <= s && (|lines[0]| < |s| ==> IsLineBreak(s[|lines[0]|]))
    decreases |s|
  {
    if |s| > 0 && !IsLineBreak(s[0]) {
      FirstLineIsPrefix(s[1..]);
      var rest := SplitLines(s[1..]);
      if rest != [] {
        var head := [s[0]] + rest[0];
        assert s == [s[0]] + s[1..];
        if |head| < |s| {
          assert s[|head|] == s[1..][|rest[0]|];
        }
      }
    }
  }

  /** Matching at the head of a line is matching at the head of the listing. */
  lemma HeadMatchAgrees(s: string, first: string, name: string)
    requires |s| > 0 && NoLineBreak(name)
    requires first <= s[1..] && (|first| < |s| - 1 ==> IsLineBreak(s[1..][|first|]))
    ensures SessionAtHead([s[0]] + first, name) <==> SessionAtHead(s, name)
  {
    var head := [s[0]] + first;
    if SessionAtHead(s, name) {
      // the first line cannot end inside "<digit>.<name>", which holds no line break
      assert |head| >= 2 + |name|;
      assert head[2..] == first[1..];
      assert s[2..] == s[1..][1..];
    }
    if SessionAtHead(head, name) {
      assert head[2..] == first[1..];
      assert s[2..] == s[1..][1..];
    }
  }

  // ---------------------------------------------------------------------
  // Argument vectors
  // ---------------------------------------------------------------------

  /**
   * `executeCmdInScreen`'s newline rule: `cmd += "\n"` unless the last
   * character already is one (`cmd[-1:]` is empty for an empty command).
   */
  function WithNewline(cmd: string): (r: string)
    ensures cmd <= r && |r| <= |cmd| + 1
    ensures r != [] && r[|r| - 1] == '\n'
    ensures r == cmd <==> (cmd != [] && cmd[|cmd| - 1] == '\n')
  {
    if LastSlice(cmd) != "\n" then cmd + "\n" else cmd
  }

  /** Normalising twice is normalising once: the newline is never doubled. */
  lemma WithNewlineIdempotent(cmd: string)
    ensures WithNewline(WithNewline(cmd)) == WithNewline(cmd)
  {
  }

  /** `getCmdPrefix`: type into the session called `name`. */
  function CmdPrefix(name: string): (prefix: seq<string>)
    ensures |prefix| == 5 && prefix[2] == name
    ensures prefix[..2] == ["screen", "-S"] && prefix[3..] == ["-X", "stuff"]
  {
    ["screen", "-S", name, "-X", "stuff"]
  }

  /**
   * `startScreen`'s vector AS WRITTEN: the formatted string
   * `"screen -h %s -dmS %s" % (historyLength, name)` is split on whitespace,
   * so the four fixed words come first and the session name contributes
   * however many whitespace-separated pieces it has (none when it is blank).
   */
  function StartVectorAsWritten(historyLength: nat, name: string): (v: seq<string>)
    ensures |v| >= 4 && v[..4] == ["screen", "-h", NatToString(historyLength), "-dmS"]
    ensures v[4..] == SplitWs(name)
  {
    var h := NatToString(historyLength);
    HistoryIsToken(historyLength);
    var fixed := ["screen", "-h", h, "-dmS"];
    assert fixed + [name] == ["screen", "-h", h, "-dmS", name];
    SplitJoinThen(fixed, name);
    SplitWs(JoinSpace(["screen", "-h", h, "-dmS", name]))
  }

  /** The printed history length is one whitespace-free argument. */
  lemma HistoryIsToken(historyLength: nat)
    ensures IsToken(NatToString(historyLength))
  {
    var h := NatToString(historyLength);
    forall i | 0 <= i < |h| ensures !IsSpace(h[i]) { assert IsDigit(h[i]); }
  }

  /** The start vector with the session name kept as one argument. */
  function StartVector(historyLength: nat, name: string): (v: seq<string>)
    ensures |v| == 5 && v[0] == "screen" && v[1] == "-h" && v[3] == "-dmS"
    ensures v[4] == name && v[2] == NatToString(historyLength)
  {
    ["screen", "-h", NatToString(historyLength), "-dmS", name]
  }

  /**
   * The two agree exactly for a name that is one token: an empty name, or
   * one holding whitespace, is always started with a different vector.
   */
  lemma StartVectorAgrees(historyLength: nat, name: string)
    ensures StartVectorAsWritten(historyLength, name) == StartVector(historyLength, name) <==> IsToken(name)
  {
    var v := StartVectorAsWritten(historyLength, name);
    if v == StartVector(historyLength, name) {
      assert SplitWs(name) == v[4..] == [name];
    }
    if IsToken(name) {
      SplitWsToken(name, "");
      assert name + "" == name;
      assert v == v[..4] + v[4..];
    }
  }

  /** The history length the default object formats into its start vector. */
  lemma DefaultHistoryText()
    ensures NatToString(HistoryLengthDefault) == "5000"
  {
    assert NatToString(5) == "5";
    assert NatToString(50) == "50";
    assert NatToString(500) == "500";
  }

  /**
   * Counterexample: a session named "my session" is started with the
   * arguments `-dmS my session`, i.e. a session called "my" running the
   * command `session`, so a later check for "my session" cannot find it.
   */
  lemma WhitespaceNameSplitsStart()
    ensures StartVectorAsWritten(HistoryLengthDefault, "my session")
      == ["screen", "-h", "5000", "-dmS", "my", "session"]
    ensures StartVectorAsWritten(HistoryLengthDefault, "my session")
      != StartVector(HistoryLengthDefault, "my session")
  {
    DefaultHistoryText();
    TwoWordName();
    TwoWordStart(HistoryLengthDefault, "my session", "my", "session");
  }

  /** A name that splits into two pieces is started as two arguments. */
  lemma TwoWordStart(h: nat, name: string, a: string, b: string)
    requires SplitWs(name) == [a, b]
    ensures StartVectorAsWritten(h, name) == ["screen", "-h", NatToString(h), "-dmS", a, b]
    ensures StartVectorAsWritten(h, name) != StartVector(h, name)
  {
    var v := StartVectorAsWritten(h, name);
    assert v == v[..4] + v[4..];
  }

  /** "my session" splits into two arguments. */
  lemma TwoWordName()
    ensures SplitWs("my session") == ["my", "session"]
  {
    var a, b := "my", "session";
    assert IsToken(a) && IsToken(b);
    assert a + " " + b == "my session";
    SplitTwoTokens(a, b);
  }

  lemma SplitTwoTokens(a: string, b: string)
    requires IsToken(a) && IsToken(b)
    ensures SplitWs(a + " " + b) == [a, b]
  {
    SplitAfterToken(a, b);
    SplitWsToken(b, "");
    assert b + "" == b;
  }

  /** Vectors `startScreen` issues: the existence check, then a listing or a start. */
  function StartIssued(name: string, historyLength: nat, running: bool): (issued: seq<seq<string>>)
    ensures |issued| == 2 && issued[0] == ListVector
    ensures running <==> issued[1] == ListVector + [name]
    ensures !running <==> issued[1] == StartVectorAsWritten(historyLength, name)
  {
    if running then [ListVector, ListVector + [name]]
    else [ListVector, StartVectorAsWritten(historyLength, name)]
  }

  /** Vectors `executeCmdInScreen` issues: the check, then the typed command or a listing dump. */
  function InjectIssued(name: string, cmd: string, running: bool): (issued: seq<seq<string>>)
    ensures |issued| == 2 && issued[0] == ListVector
    ensures running <==> issued[1] == CmdPrefix(name) + [WithNewline(cmd)]
    ensures !running <==> issued[1] == ListVector
  {
    if running then [ListVector, CmdPrefix(name) + [WithNewline(cmd)]]
    else [ListVector, ListVector]
  }

  // ---------------------------------------------------------------------
  // The object
  // ---------------------------------------------------------------------

  class TalkToScreen {
    /** The session name; the empty string stands for Python's unset `None`. */
    var screenName: string
    var historyLength: nat
    var verbose: bool

    constructor ()
      ensures screenName == "" && historyLength == HistoryLengthDefault && !verbose
    {
      screenName := "";
      historyLength := HistoryLengthDefault;
      verbose := false;
    }

    static method CreateWithName(name: string) returns (obj: TalkToScreen)
      ensures fresh(obj)
      ensures obj.screenName == name && obj.historyLength == HistoryLengthDefault && !obj.verbose
    {
      obj := new TalkToScreen();
      obj.screenName := name;
    }

    method VerboseModeOn()
      modifies this
      ensures verbose
      ensures screenName == old(screenName) && historyLength == old(historyLength)
    {
      verbose := true;
    }

    method VerboseModeOff()
      modifies this
      ensures !verbose
      ensures screenName == old(screenName) && historyLength == old(historyLength)
    {
      verbose := false;
    }

    /** `getCmdPrefix`; the name must be set (the source asserts it). */
    function GetCmdPrefix(): (prefix: seq<string>)
      reads this
      requires screenName != ""
      ensures |prefix| == 5 && prefix[2] == screenName
      ensures prefix[..2] == ["screen", "-S"] && prefix[3..] == ["-X", "stuff"]
    {
      CmdPrefix(screenName)
    }

    /**
     * `screenAlreadyRunning`, given the text `screen -ls` printed: scans the
     * lines and stops at the first that matches. It issues `ListVector`.
     */
    method ScreenAlreadyRunning(listing: string) returns (screenExists: bool)
      requires screenName != ""
      ensures screenExists <==> SessionListed(listing, screenName)
    {
      var lines := SplitLines(listing);
      screenExists := false;
      var i := 0;
      while i < |lines|
        invariant 0 <= i <= |lines|
        invariant forall j | 0 <= j < i :: !SearchSession(lines[j], screenName)
      {
        if SearchSession(lines[i], screenName) {
          screenExists := true;
          break;
        }
        i := i + 1;
      }
    }

    /** `startScreen`: refuses (and lists the session) when one of that name runs. */
    method StartScreen(listing: string) returns (issued: seq<seq<string>>)
      requires screenName != ""
      ensures issued == StartIssued(screenName, historyLength, SessionListed(listing, screenName))
    {
      var running := ScreenAlreadyRunning(listing);
      issued := [ListVector];
      if running {
        issued := issued + [ListVector + [screenName]];
        return;
      }
      var cmdList := StartVectorAsWritten(historyLength, screenName);
      issued := issued + [cmdList];
    }

    /** `executeCmdInScreen`: types `cmd`, ending in a newline added only when missing, only into a running session. */
    method ExecuteCmdInScreen(cmd: string, listing: string) returns (issued: seq<seq<string>>)
      requires screenName != ""
      ensures issued == InjectIssued(screenName, cmd, SessionListed(listing, screenName))
    {
      var running := ScreenAlreadyRunning(listing);
      issued := [ListVector];
      if !running {
        issued := issued + [ListVector];
        return;
      }
      var cmdPrefix := GetCmdPrefix();
      var text := cmd;
      if LastSlice(text) != "\n" {
        text := text + "\n";
      }
      issued := issued + [cmdPrefix + [text]];
    }

    /** `exitScreen`: typing `exit` into the session. */
    method ExitScreen(listing: string) returns (issued: seq<seq<string>>)
      requires screenName != ""
      ensures issued == InjectIssued(screenName, "exit", SessionListed(listing, screenName))
      ensures SessionListed(listing, screenName) ==> issued[1][5] == "exit\n"
    {
      issued := ExecuteCmdInScreen("exit", listing);
    }
  }

  // ---------------------------------------------------------------------
  // Command line and `main`
  // ---------------------------------------------------------------------

  /** The parsed flags: -v, -l, -s, every -r in order, -e. */
  datatype Options = Options(verbose: bool, listScreens: bool, startScreen: bool,
                             runCmd: seq<string>, exitScreen: bool)

  datatype ArgError = TooManyArguments | NameRequired | UnneededArgument

  /** One of -s, -r, -e was given. */
  predicate ActsOnScreen(clo: Options)
  {
    clo.startScreen || clo.runCmd != [] || clo.exitScreen
  }

  /** The consistency rules of `setupCmdLineArgs`, checked in the source's order. */
  method SetupCmdLineArgs(clo: Options, args: seq<string>) returns (r: Result<Options, ArgError>)
    ensures r == Failure(TooManyArguments) <==> |args| > 1
    ensures r == Failure(NameRequired) <==> ActsOnScreen(clo) && |args| == 0
    ensures r == Failure(UnneededArgument) <==> !ActsOnScreen(clo) && |args| == 1
    ensures r.Success? <==> |args| <= 1 && (ActsOnScreen(clo) <==> |args| == 1)
    ensures r.Success? ==> r.value == clo.(listScreens := clo.listScreens || !ActsOnScreen(clo))
  {
    var opts := clo;
    if |args| > 1 {
      return Failure(TooManyArguments);
    } else if ActsOnScreen(opts) && |args| != 1 {
      return Failure(NameRequired);
    } else if !ActsOnScreen(opts) && |args| > 0 {
      return Failure(UnneededArgument);
    } else if !ActsOnScreen(opts) {
      opts := opts.(listScreens := true);
    }
    return Success(opts);
  }

  /** One step `main` takes on the named session. */
  datatype Action = Start | Inject(cmd: string) | Exit

  /** One `Inject` per command, in order. */
  function Injects(cmds: seq<string>): (plan: seq<Action>)
    ensures |plan| == |cmds|
    ensures forall i | 0 <= i < |cmds| :: plan[i] == Inject(cmds[i])
    decreases |cmds|
  {
    if cmds == [] then [] else Injects(cmds[..|cmds| - 1]) + [Inject(cmds[|cmds| - 1])]
  }

  /** -s first, then every -r in the order given, then -e. */
  function Plan(clo: Options): (plan: seq<Action>)
    ensures |plan| == (if clo.startScreen then 1 else 0) + |clo.runCmd| + (if clo.exitScreen then 1 else 0)
    ensures plan == [] <==> !ActsOnScreen(clo)
  {
    (if clo.startScreen then [Start] else [])
    + Injects(clo.runCmd)
    + (if clo.exitScreen then [Exit] else [])
  }

  /** Where each flag's action sits in the plan. */
  lemma PlanShape(clo: Options)
    ensures var plan := Plan(clo); var first := if clo.startScreen then 1 else 0;
      && (clo.startScreen ==> plan[0] == Start)
      && (forall j | 0 <= j < |clo.runCmd| :: plan[first + j] == Inject(clo.runCmd[j]))
      && (clo.exitScreen ==> plan[|plan| - 1] == Exit)
  {
    var head: seq<Action> := if clo.startScreen then [Start] else [];
    var tail: seq<Action> := if clo.exitScreen then [Exit] else [];
    var injects := Injects(clo.runCmd);
    var plan := Plan(clo);
    ThreeParts(head, injects, tail);
    forall j | 0 <= j < |clo.runCmd|
      ensures plan[|head| + j] == Inject(clo.runCmd[j])
    {
      assert plan[|head| + j] == injects[j];
    }
  }

  /** Indexing into a concatenation of three parts. */
  lemma ThreeParts<T>(a: seq<T>, b: seq<T>, c: seq<T>)
    ensures a != [] ==> (a + b + c)[0] == a[0]
    ensures forall j | 0 <= j < |b| :: (a + b + c)[|a| + j] == b[j]
    ensures c != [] ==> (a + b + c)[|a + b + c| - 1] == c[|c| - 1]
  {
  }

  /** Taking every element is taking the whole sequence. */
  lemma WholePrefix<T>(s: seq<T>)
    ensures s[..|s|] == s
  {
  }

  /** The action at position `k` of the plan. */
  lemma PlanAt(clo: Options, k: nat)
    requires k < |Plan(clo)|
    ensures var first := if clo.startScreen then 1 else 0;
      Plan(clo)[k] == if clo.startScreen && k == 0 then Start
                      else if k < first + |clo.runCmd| then Inject(clo.runCmd[k - first])
                      else Exit
  {
  }

  function ActionIssued(name: string, historyLength: nat, a: Action, listing: string): seq<seq<string>>
  {
    var running := SessionListed(listing, name);
    match a
    case Start => StartIssued(name, historyLength, running)
    case Inject(cmd) => InjectIssued(name, cmd, running)
    case Exit => InjectIssued(name, "exit", running)
  }

  /** The vectors of a sequence of actions, each judged by its own listing. */
  function PlanIssued(name: string, historyLength: nat, plan: seq<Action>, listings: seq<string>)
    : (issued: seq<seq<string>>)
    requires |listings| == |plan|
    ensures |issued| == 2 * |plan|
    decreases |plan|
  {
    if plan == [] then []
    else
      PlanIssued(name, historyLength, plan[..|plan| - 1], listings[..|listings| - 1])
      + ActionIssued(name, historyLength, plan[|plan| - 1], listings[|listings| - 1])
  }

  lemma PlanIssuedStep(name: string, h: nat, plan: seq<Action>, listings: seq<string>, k: nat)
    requires |listings| == |plan| && k < |plan|
    ensures PlanIssued(name, h, plan[..k + 1], listings[..k + 1])
      == PlanIssued(name, h, plan[..k], listings[..k]) + ActionIssued(name, h, plan[k], listings[k])
  {
    assert plan[..k + 1][..k] == plan[..k];
    assert listings[..k + 1][..k] == listings[..k];
  }

  /** Issuing the vectors of action `k` extends the vectors of the actions before it. */
  lemma IssueNext(name: string, h: nat, plan: seq<Action>, listings: seq<string>, k: nat,
                  issued: seq<seq<string>>, step: seq<seq<string>>)
    requires |listings| == |plan| && k < |plan|
    requires issued == PlanIssued(name, h, plan[..k], listings[..k])
    requires step == ActionIssued(name, h, plan[k], listings[k])
    ensures issued + step == PlanIssued(name, h, plan[..k + 1], listings[..k + 1])
  {
    PlanIssuedStep(name, h, plan, listings, k);
  }

  /** How `main` ends: a usage error, an assertion on an empty name, or done. */
  datatype RunOutcome =
    | UsageError(error: ArgError)
    | NameAssertion
    | Done(issued: seq<seq<string>>)

  /**
   * The actions of `main` on a named session: start if -s, every -r command
   * in the order given, exit if -e. `listings[k]` is what `screen -ls`
   * prints when the k-th action checks for the session.
   */
  method PerformActions(screen: TalkToScreen, opts: Options, listings: seq<string>)
    returns (issued: seq<seq<string>>)
    requires screen.screenName != ""
    requires |listings| == |Plan(opts)|
    ensures issued == PlanIssued(screen.screenName, screen.historyLength, Plan(opts), listings)
  {
    var k := 0;
    issued := [];
    if opts.startScreen {
      issued := StartFirst(screen, opts, listings);
      k := 1;
    }
    for j := 0 to |opts.runCmd|
      invariant k == (if opts.startScreen then 1 else 0) + j
      invariant issued == PlanIssued(screen.screenName, screen.historyLength, Plan(opts)[..k], listings[..k])
    {
      issued := RunNext(screen, opts, listings, j, issued);
      k := k + 1;
    }
    issued := ExitLast(screen, opts, listings, issued);
  }

  /** The `-s` action, first in the plan. */
  method StartFirst(screen: TalkToScreen, opts: Options, listings: seq<string>)
    returns (issued: seq<seq<string>>)
    requires screen.screenName != ""
    requires |listings| == |Plan(opts)| && opts.startScreen
    ensures issued == PlanIssued(screen.screenName, screen.historyLength, Plan(opts)[..1], listings[..1])
  {
    var step := screen.StartScreen(listings[0]);
    PlanAt(opts, 0);
    IssueNext(screen.screenName, screen.historyLength, Plan(opts), listings, 0, [], step);
    issued := step;
  }

  /** One `-r` command of the plan: the `j`-th, at plan position `k`. */
  method RunNext(screen: TalkToScreen, opts: Options, listings: seq<string>, j: nat, issued: seq<seq<string>>)
    returns (extended: seq<seq<string>>)
    requires screen.screenName != ""
    requires |listings| == |Plan(opts)| && j < |opts.runCmd|
    requires var k := (if opts.startScreen then 1 else 0) + j;
      issued == PlanIssued(screen.screenName, screen.historyLength, Plan(opts)[..k], listings[..k])
    ensures var k := (if opts.startScreen then 1 else 0) + j;
      extended == PlanIssued(screen.screenName, screen.historyLength, Plan(opts)[..k + 1], listings[..k + 1])
  {
    var k := (if opts.startScreen then 1 else 0) + j;
    var step := screen.ExecuteCmdInScreen(opts.runCmd[j], listings[k]);
    PlanAt(opts, k);
    IssueNext(screen.screenName, screen.historyLength, Plan(opts), listings, k, issued, step);
    extended := issued + step;
  }

  /** The `-e` action, last in the plan, when given; the plan is then complete. */
  method ExitLast(screen: TalkToScreen, opts: Options, listings: seq<string>, issued: seq<seq<string>>)
    returns (extended: seq<seq<string>>)
    requires screen.screenName != ""
    requires |listings| == |Plan(opts)|
    requires var k := (if opts.startScreen then 1 else 0) + |opts.runCmd|;
      issued == PlanIssued(screen.screenName, screen.historyLength, Plan(opts)[..k], listings[..k])
    ensures extended == PlanIssued(screen.screenName, screen.historyLength, Plan(opts), listings)
  {
    ghost var plan := Plan(opts);
    var k := (if opts.startScreen then 1 else 0) + |opts.runCmd|;
    extended := issued;
    if opts.exitScreen {
      var step := screen.ExitScreen(listings[k]);
      PlanAt(opts, k);
      IssueNext(screen.screenName, screen.historyLength, plan, listings, k, issued, step);
      extended := issued + step;
      k := k + 1;
    }
    assert k == |plan|;
    WholePrefix(plan);
    WholePrefix(listings);
  }

  /**
   * `main`: validate the flags, act on the named session, and list the
   * sessions when -l was given or implied.
   */
  method RunCommandLine(clo: Options, args: seq<string>, listings: seq<string>) returns (outcome: RunOutcome)
    requires |listings| == |Plan(clo)|
    ensures outcome.UsageError? <==> !(|args| <= 1 && (ActsOnScreen(clo) <==> |args| == 1))
    ensures outcome.NameAssertion? <==> ActsOnScreen(clo) && args == [""]
    ensures outcome.Done? ==>
      outcome.issued ==
        (if ActsOnScreen(clo) then PlanIssued(args[0], HistoryLengthDefault, Plan(clo), listings) else [])
        + (if clo.listScreens || !ActsOnScreen(clo) then [ListVector] else [])
  {
    var checked := SetupCmdLineArgs(clo, args);
    if checked.Failure? {
      return UsageError(checked.error);
    }
    var opts := checked.value;
    assert Plan(opts) == Plan(clo);
    var issued: seq<seq<string>> := [];
    if ActsOnScreen(opts) {
      var screenName := args[0];
      if screenName == "" {
        // every action begins with `assert self.screenName`
        return NameAssertion;
      }
      var screen := TalkToScreen.CreateWithName(screenName);
      if opts.verbose {
        screen.VerboseModeOn();
      }
      issued := PerformActions(screen, opts, listings);
    }
    if opts.listScreens {
      issued := issued + [ListVector];
    }
    return Done(issued);
  }

  // ---------------------------------------------------------------------
  // What reaches the session
  // ---------------------------------------------------------------------

  /** The text one vector types into `name`'s session, if it is `screen -S name -X stuff text`. */
  function TypedBy(name: string, v: seq<string>): seq<string>
  {
    if |v| == 6 && v[..5] == CmdPrefix(name) then [v[5]] else []
  }

  /** The texts typed into `name`'s session by a run of vectors, in order. */
  function InjectedTexts(name: string, issued: seq<seq<string>>): seq<string>
    decreases |issued|
  {
    if issued == [] then []
    else InjectedTexts(name, issued[..|issued| - 1]) + TypedBy(name, issued[|issued| - 1])
  }

  lemma InjectedTextsAppend(name: string, a: seq<seq<string>>, b: seq<seq<string>>)
    ensures InjectedTexts(name, a + b) == InjectedTexts(name, a) + InjectedTexts(name, b)
    decreases |b|
  {
    if b == [] {
      assert a + b == a;
    } else {
      assert (a + b)[..|a + b| - 1] == a + b[..|b| - 1];
      InjectedTextsAppend(name, a, b[..|b| - 1]);
    }
  }

  /** The text each action types, when the session is running. */
  function ActionText(a: Action): seq<string>
  {
    match a
    case Start => []
    case Inject(cmd) => [WithNewline(cmd)]
    case Exit => ["exit\n"]
  }

  function PlanTexts(plan: seq<Action>): seq<string>
    decreases |plan|
  {
    if plan == [] then [] else PlanTexts(plan[..|plan| - 1]) + ActionText(plan[|plan| - 1])
  }

  lemma PlanTextsStep(plan: seq<Action>, k: nat)
    requires k < |plan|
    ensures PlanTexts(plan[..k + 1]) == PlanTexts(plan[..k]) + ActionText(plan[k])
  {
    assert plan[..k + 1][..k] == plan[..k];
  }

  /** The texts one action types: its own command when the session is listed, else none. */
  lemma ActionTypes(name: string, h: nat, a: Action, listing: string)
    ensures InjectedTexts(name, ActionIssued(name, h, a, listing))
      == if SessionListed(listing, name) then ActionText(a) else []
  {
    var step := ActionIssued(name, h, a, listing);
    assert step == [step[0]] + [step[1]];
    InjectedTextsAppend(name, [step[0]], [step[1]]);
    assert [step[0]][..0] == [] && [step[1]][..0] == [];
    assert TypedBy(name, step[0]) == [];
    if SessionListed(listing, name) {
      match a
      case Start =>
        assert TypedBy(name, step[1]) == [];
      case Inject(cmd) =>
        assert (CmdPrefix(name) + [WithNewline(cmd)])[..5] == CmdPrefix(name);
      case Exit =>
        assert (CmdPrefix(name) + [WithNewline("exit")])[..5] == CmdPrefix(name);
        assert WithNewline("exit") == "exit\n";
    } else {
      if a.Start? {
        assert step[1][1] == step[1][..4][1] == "-h";
      }
      assert TypedBy(name, step[1]) == [];
    }
  }

  /**
   * While the session is listed at the check of every action but a start,
   * the session receives exactly the commands of the plan, each ending in a
   * newline added only when missing, in plan order. A start types nothing,
   * whether its own check finds the session (and refuses to start) or not.
   */
  lemma {:induction false} PlanTypesInOrder(name: string, h: nat, plan: seq<Action>, listings: seq<string>)
    requires |listings| == |plan|
    requires forall k | 0 <= k < |listings| && !plan[k].Start? :: SessionListed(listings[k], name)
    ensures InjectedTexts(name, PlanIssued(name, h, plan, listings)) == PlanTexts(plan)
    decreases |plan|
  {
    if plan != [] {
      var n := |plan| - 1;
      assert forall k | 0 <= k < n :: plan[..n][k] == plan[k] && listings[..n][k] == listings[k];
      PlanTypesInOrder(name, h, plan[..n], listings[..n]);
      InjectedTextsAppend(name, PlanIssued(name, h, plan[..n], listings[..n]), ActionIssued(name, h, plan[n], listings[n]));
      ActionTypes(name, h, plan[n], listings[n]);
    }
  }

  /** A session that is never listed receives nothing at all. */
  lemma {:induction false} PlanTypesNothingWhenAbsent(name: string, h: nat, plan: seq<Action>, listings: seq<string>)
    requires |listings| == |plan|
    requires forall k | 0 <= k < |listings| :: !SessionListed(listings[k], name)
    ensures InjectedTexts(name, PlanIssued(name, h, plan, listings)) == []
    decreases |plan|
  {
    if plan != [] {
      var n := |plan| - 1;
      PlanTypesNothingWhenAbsent(name, h, plan[..n], listings[..n]);
      InjectedTextsAppend(name, PlanIssued(name, h, plan[..n], listings[..n]), ActionIssued(name, h, plan[n], listings[n]));
      ActionTypes(name, h, plan[n], listings[n]);
    }
  }
}
