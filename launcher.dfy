/**
 * startPICommunications.py: start a detached `screen` session and type into
 * it a shell loop that runs the telemetry bridge on a serial port, waits
 * 300 seconds, and runs it again, for ever.
 */
module Launcher {
  import opened Wrappers
  import opened PyStr
  import SC = ScreenControl

  /** `sleepSeconds`: the pause between two runs of the bridge. */
  const SleepSeconds: nat := 300

  /** The flags: -v and -n (`noOp`: only print what would be done). */
  datatype LaunchOptions = LaunchOptions(verbose: bool, noOp: bool)

  /** `setupCmdLineArgs`: a serial port and a session name, nothing more and nothing less. */
  function SetupCmdLineArgs(args: seq<string>): (r: Option<(string, string)>)
    ensures r.Some? <==> |args| == 2
    ensures r.Some? ==> r.value.0 == args[0] && r.value.1 == args[1]
  {
    if |args| != 2 then None else Some((args[0], args[1]))
  }

  /** The `cmdList` of `main`, built one `append` at a time. */
  method BuildCmdList(execDir: string, serialPort: string) returns (cmdList: seq<string>)
    ensures cmdList == LoopScript(execDir, serialPort)
  {
    var sleepSeconds := SleepSeconds;
    cmdList := [];
    cmdList := cmdList + ["cd '" + execDir + "'"];
    cmdList := cmdList + ["while :; do"];
    cmdList := cmdList + ["date"];
    cmdList := cmdList + ["./lucky7ToThingSpeak.py " + serialPort];
    cmdList := cmdList + ["echo 'Sleeping for " + NatToString(sleepSeconds) + " seconds (Ctrl-c to exit)...'"];
    cmdList := cmdList + ["sleep " + NatToString(sleepSeconds)];
    cmdList := cmdList + ["done"];
  }

  /** The pause is 300 seconds, in the notice and in the `sleep` alike. */
  lemma SleepText()
    ensures NatToString(SleepSeconds) == "300"
  {
    assert NatToString(3) == "3";
    assert NatToString(30) == "30";
  }

  /** Start the session, then type each command of the script, in order. */
  function LaunchPlan(cmdList: seq<string>): (plan: seq<SC.Action>)
    ensures |plan| == 1 + |cmdList| && plan[0] == SC.Start
    ensures forall i | 0 <= i < |cmdList| :: plan[1 + i] == SC.Inject(cmdList[i])
  {
    [SC.Start] + SC.Injects(cmdList)
  }

  /** How `main` ends. */
  datatype LaunchOutcome =
    | UsageError
    | NameAssertion                                   // `assert self.screenName` on an empty name
    | AlreadyRunning(issued: seq<seq<string>>)
    | Launched(issued: seq<seq<string>>, echoed: seq<string>)

  /** Existence checks `main` can make: the guard, the one inside `startScreen`, one per command. */
  const ListingsNeeded: nat := 9

  /**
   * `main`. `execDir` is the script's own directory; `listings[k]` is what
   * `screen -ls` prints at the k-th existence check (the guard, the check
   * inside `startScreen`, then one per command).
   */
  method RunLauncher(clo: LaunchOptions, args: seq<string>, execDir: string, listings: seq<string>)
    returns (outcome: LaunchOutcome)
    requires |listings| == ListingsNeeded
    ensures outcome.UsageError? <==> |args| != 2
    ensures outcome.NameAssertion? <==> |args| == 2 && !clo.noOp && args[1] == ""
    ensures outcome.AlreadyRunning? <==>
      |args| == 2 && !clo.noOp && args[1] != "" && SC.SessionListed(listings[0], args[1])
    ensures outcome.AlreadyRunning? ==> outcome.issued == [SC.ListVector]
    ensures outcome.Launched? && clo.noOp ==>
      outcome.issued == [] && outcome.echoed == LoopScript(execDir, args[0])
    ensures outcome.Launched? && !clo.noOp ==>
      && outcome.echoed == []
      && outcome.issued == [SC.ListVector] + SC.PlanIssued(args[1], SC.HistoryLengthDefault,
                                                          LaunchPlan(LoopScript(execDir, args[0])), listings[1..])
  {
    var checked := SetupCmdLineArgs(args);
    if checked.None? {
      return UsageError;
    }
    var (serialPort, screenName) := checked.value;
    if clo.noOp {
      // the session steps are only announced, and each command only printed
      var cmdList := BuildCmdList(execDir, serialPort);
      return Launched([], cmdList);
    }
    outcome := LaunchOnScreen(serialPort, screenName, execDir, listings);
  }

  /** `main` past the flags, when it acts: guard, start, type the script. */
  method LaunchOnScreen(serialPort: string, screenName: string, execDir: string, listings: seq<string>)
    returns (outcome: LaunchOutcome)
    requires |listings| == ListingsNeeded
    ensures outcome.NameAssertion? <==> screenName == ""
    ensures outcome.AlreadyRunning? <==> screenName != "" && SC.SessionListed(listings[0], screenName)
    ensures outcome.AlreadyRunning? ==> outcome.issued == [SC.ListVector]
    ensures !outcome.NameAssertion? && !outcome.AlreadyRunning? ==>
      outcome == Launched([SC.ListVector] + SC.PlanIssued(screenName, SC.HistoryLengthDefault,
                                                         LaunchPlan(LoopScript(execDir, serialPort)), listings[1..]),
                          [])
  {
    var screen := SC.TalkToScreen.CreateWithName(screenName);
    if screenName == "" {
      return NameAssertion;
    }
    var running := screen.ScreenAlreadyRunning(listings[0]);
    if running {
      return AlreadyRunning([SC.ListVector]);
    }
    var launched := StartAndType(screen, execDir, serialPort, listings[1..]);
    return Launched([SC.ListVector] + launched, []);
  }

  /** Start the session, build the loop script, and type it in line by line. */
  method StartAndType(screen: SC.TalkToScreen, execDir: string, serialPort: string, listings: seq<string>)
    returns (issued: seq<seq<string>>)
    requires screen.screenName != "" && screen.historyLength == SC.HistoryLengthDefault
    requires |listings| == ListingsNeeded - 1
    ensures issued == SC.PlanIssued(screen.screenName, SC.HistoryLengthDefault,
                                    LaunchPlan(LoopScript(execDir, serialPort)), listings)
  {
    var started := screen.StartScreen(listings[0]);
    var cmdList := BuildCmdList(execDir, serialPort);
    var injected := InjectAll(screen, cmdList, listings[1..]);
    LaunchIssued(screen.screenName, cmdList, listings, started, injected);
    issued := started + injected;
  }

  /** The script sleeps 300 seconds between runs and says so first. */
  lemma LoopScriptSleeps(execDir: string, serialPort: string)
    ensures LoopScript(execDir, serialPort)[4] == "echo 'Sleeping for " + "300" + " seconds (Ctrl-c to exit)...'"
    ensures LoopScript(execDir, serialPort)[5] == "sleep 300"
  {
    SleepText();
    assert "sleep " + "300" == "sleep 300";
  }

  /** The seven lines `BuildCmdList` produces, for stating results about them. */
  function LoopScript(execDir: string, serialPort: string): (script: seq<string>)
    ensures |script| == 7
    ensures script[0] == "cd '" + execDir + "'"
    ensures script[1] == "while :; do" && script[2] == "date"
    ensures script[3] == "./lucky7ToThingSpeak.py " + serialPort
    ensures script[4] == "echo 'Sleeping for " + NatToString(SleepSeconds) + " seconds (Ctrl-c to exit)...'"
    ensures script[5] == "sleep " + NatToString(SleepSeconds)
    ensures script[6] == "done"
  {
    ["cd '" + execDir + "'", "while :; do", "date", "./lucky7ToThingSpeak.py " + serialPort,
     "echo 'Sleeping for " + NatToString(SleepSeconds) + " seconds (Ctrl-c to exit)...'",
     "sleep " + NatToString(SleepSeconds), "done"]
  }

  /** The `for cmd in cmdList` loop: one `executeCmdInScreen` per command, in list order. */
  method InjectAll(screen: SC.TalkToScreen, cmdList: seq<string>, listings: seq<string>)
    returns (issued: seq<seq<string>>)
    requires screen.screenName != ""
    requires |listings| >= |cmdList|
    ensures issued == InjectedSoFar(screen.screenName, cmdList, listings, |cmdList|)
  {
    var name := screen.screenName;
    issued := [];
    for i := 0 to |cmdList|
      invariant issued == InjectedSoFar(name, cmdList, listings, i)
    {
      var step := screen.ExecuteCmdInScreen(cmdList[i], listings[i]);
      assert InjectedSoFar(name, cmdList, listings, i + 1) == InjectedSoFar(name, cmdList, listings, i) + step;
      issued := issued + step;
    }
  }

  /** The vectors of the first `n` injections. */
  function InjectedSoFar(name: string, cmdList: seq<string>, listings: seq<string>, n: nat): seq<seq<string>>
    requires n <= |cmdList| && n <= |listings|
  {
    if n == 0 then []
    else
      InjectedSoFar(name, cmdList, listings, n - 1)
      + SC.InjectIssued(name, cmdList[n - 1], SC.SessionListed(listings[n - 1], name))
  }

  /** Starting and then injecting is the launch plan, action by action. */
  lemma {:induction false} LaunchIssued(name: string, cmdList: seq<string>, listings: seq<string>,
                                        started: seq<seq<string>>, injected: seq<seq<string>>)
    requires |listings| == 1 + |cmdList|
    requires started == SC.StartIssued(name, SC.HistoryLengthDefault, SC.SessionListed(listings[0], name))
    requires injected == InjectedSoFar(name, cmdList, listings[1..], |cmdList|)
    ensures started + injected == SC.PlanIssued(name, SC.HistoryLengthDefault, LaunchPlan(cmdList), listings)
  {
    var plan := LaunchPlan(cmdList);
    var n := |cmdList|;
    var h := SC.HistoryLengthDefault;
    assert started + injected == SC.PlanIssued(name, h, plan[..1 + n], listings[..1 + n]) by {
      PlanPrefix(name, cmdList, listings, n, started);
    }
    assert SC.PlanIssued(name, h, plan[..1 + n], listings[..1 + n]) == SC.PlanIssued(name, h, plan, listings) by {
      assert plan[..1 + n] == plan && listings[..1 + n] == listings;
    }
  }

  lemma {:induction false} PlanPrefix(name: string, cmdList: seq<string>, listings: seq<string>, n: nat,
                                      started: seq<seq<string>>)
    requires |listings| == 1 + |cmdList| && n <= |cmdList|
    requires started == SC.StartIssued(name, SC.HistoryLengthDefault, SC.SessionListed(listings[0], name))
    ensures started + InjectedSoFar(name, cmdList, listings[1..], n)
      == SC.PlanIssued(name, SC.HistoryLengthDefault, LaunchPlan(cmdList)[..1 + n], listings[..1 + n])
  {
    if n == 0 {
      PlanStart(name, cmdList, listings, started);
    } else {
      PlanPrefix(name, cmdList, listings, n - 1, started);
      PlanNext(name, cmdList, listings, n, started);
    }
  }

  /** The first entry of the launch plan is the start. */
  lemma PlanStart(name: string, cmdList: seq<string>, listings: seq<string>, started: seq<seq<string>>)
    requires |listings| == 1 + |cmdList|
    requires started == SC.StartIssued(name, SC.HistoryLengthDefault, SC.SessionListed(listings[0], name))
    ensures started + InjectedSoFar(name, cmdList, listings[1..], 0)
      == SC.PlanIssued(name, SC.HistoryLengthDefault, LaunchPlan(cmdList)[..1], listings[..1])
  {
    var plan := LaunchPlan(cmdList);
    assert plan[..0] == [] && listings[..0] == [];
    assert plan[0] == SC.Start;
    SC.IssueNext(name, SC.HistoryLengthDefault, plan, listings, 0, [], started);
    assert [] + started == started + [];
  }

  /** Injection `n` extends the plan's vectors by its own. */
  lemma PlanNext(name: string, cmdList: seq<string>, listings: seq<string>, n: nat, started: seq<seq<string>>)
    requires |listings| == 1 + |cmdList| && 1 <= n <= |cmdList|
    requires started + InjectedSoFar(name, cmdList, listings[1..], n - 1)
      == SC.PlanIssued(name, SC.HistoryLengthDefault, LaunchPlan(cmdList)[..n], listings[..n])
    ensures started + InjectedSoFar(name, cmdList, listings[1..], n)
      == SC.PlanIssued(name, SC.HistoryLengthDefault, LaunchPlan(cmdList)[..1 + n], listings[..1 + n])
  {
    var plan := LaunchPlan(cmdList);
    var before := InjectedSoFar(name, cmdList, listings[1..], n - 1);
    var step := InjectStep(name, cmdList, listings, n);
    var whole := InjectedSoFar(name, cmdList, listings[1..], n);
    SC.IssueNext(name, SC.HistoryLengthDefault, plan, listings, n, started + before, step);
    AppendStep(started, before, step, whole);
  }

  lemma AppendStep<T>(started: seq<T>, before: seq<T>, step: seq<T>, whole: seq<T>)
    requires whole == before + step
    ensures started + whole == (started + before) + step
  {
  }

  /** The `n`-th entry of the launch plan issues what the `n`-th injection issues. */
  lemma InjectStep(name: string, cmdList: seq<string>, listings: seq<string>, n: nat)
    returns (step: seq<seq<string>>)
    requires |listings| == 1 + |cmdList| && 1 <= n <= |cmdList|
    ensures step == SC.ActionIssued(name, SC.HistoryLengthDefault, LaunchPlan(cmdList)[n], listings[n])
    ensures InjectedSoFar(name, cmdList, listings[1..], n) == InjectedSoFar(name, cmdList, listings[1..], n - 1) + step
  {
    assert listings[1..][n - 1] == listings[n];
    step := SC.InjectIssued(name, cmdList[n - 1], SC.SessionListed(listings[n], name));
  }

  /**
   * Whatever the start's own check finds, while the session is listed at
   * each later check it receives the seven lines of the loop script, each
   * ending in a newline added only when missing, in script order. In a
   * normal launch the start's check finds nothing and the start is issued.
   */
  lemma TypesLoopScript(name: string, execDir: string, serialPort: string, listings: seq<string>)
    requires |listings| == ListingsNeeded - 1
    requires forall k | 1 <= k < |listings| :: SC.SessionListed(listings[k], name)
    ensures var script := LoopScript(execDir, serialPort);
      var texts := SC.InjectedTexts(name, SC.PlanIssued(name, SC.HistoryLengthDefault, LaunchPlan(script), listings));
      |texts| == 7 && forall i | 0 <= i < 7 :: texts[i] == SC.WithNewline(script[i])
  {
    var script := LoopScript(execDir, serialPort);
    var plan := LaunchPlan(script);
    SC.PlanTypesInOrder(name, SC.HistoryLengthDefault, plan, listings);
    PlanTextsOfScript(script, 7);
    SC.WholePrefix(plan);
  }

  /** The texts the first `n` commands type, each normalised to end in a newline. */
  function TypedScript(cmdList: seq<string>, n: nat): (texts: seq<string>)
    requires n <= |cmdList|
    ensures |texts| == n && forall i | 0 <= i < n :: texts[i] == SC.WithNewline(cmdList[i])
  {
    if n == 0 then [] else TypedScript(cmdList, n - 1) + [SC.WithNewline(cmdList[n - 1])]
  }

  lemma {:induction false} PlanTextsOfScript(cmdList: seq<string>, n: nat)
    requires n <= |cmdList|
    ensures SC.PlanTexts(LaunchPlan(cmdList)[..1 + n]) == TypedScript(cmdList, n)
  {
    var plan := LaunchPlan(cmdList);
    if n == 0 {
      SC.PlanTextsStep(plan, 0);
      assert plan[..0] == [];
    } else {
      PlanTextsOfScript(cmdList, n - 1);
      SC.PlanTextsStep(plan, n);
      assert SC.ActionText(plan[n]) == [SC.WithNewline(cmdList[n - 1])];
    }
  }
}
