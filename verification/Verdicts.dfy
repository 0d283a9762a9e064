/** The two evaluation scripts: the rewrite of relaxed to seq_cst accesses, the classification of
    verdict pairs, and what the classifications mean for the programs themselves. */
module Verdicts {
  import opened StoreBuffer
  import opened Machine
  import opened Inclusion
  import opened Fenced

  // Violations: a run reaches local states that fail the program's assertion.

  ghost predicate ScBug<A(!new), L(!new)>(p: Program<A, L>, c0: ScConf<A, L>, bad: seq<L> -> bool) {
    exists sched :: bad(ScExec(p, c0, sched).loc)
  }

  ghost predicate TsoBug<A(!new), L(!new)>(p: Program<A, L>, c0: ScConf<A, L>, bad: seq<L> -> bool) {
    exists sched :: bad(TsoExec(p, TsoInit(c0), sched).loc)
  }

  ghost predicate PsoBug<A(!new), L(!new)>(p: Program<A, L>, c0: ScConf<A, L>, bad: seq<L> -> bool) {
    exists sched :: bad(PsoExec(p, PsoInit(c0), sched).loc)
  }

  /** A bug under a stronger model is a bug under every weaker one. */
  lemma BugsGrow<A(!new), L(!new)>(p: Program<A, L>, c0: ScConf<A, L>, bad: seq<L> -> bool)
    ensures ScBug(p, c0, bad) ==> TsoBug(p, c0, bad)
    ensures TsoBug(p, c0, bad) ==> PsoBug(p, c0, bad)
  {
    if sched :| bad(ScExec(p, c0, sched).loc) {
      ScRunIsTsoRun(p, c0, sched);
    }
    if sched :| bad(TsoExec(p, TsoInit(c0), sched).loc) {
      TsoRunIsPsoRun(p, c0, sched);
    }
  }

  // run_cbmc.sh

  datatype CbmcOutput = CbmcOutput(successful: bool, failed: bool, status: int)

  datatype CbmcResult = Safe | BugDetected | Timeout | Exception

  datatype CbmcConclusion = WmmBug | LogicBug | NoBug | ErrorOrTimeout

  datatype CbmcRow = CbmcRow(file: string, tso: CbmcResult, pso: CbmcResult, conclusion: CbmcConclusion)

  function ReadCbmc(o: CbmcOutput): CbmcResult {
    if o.successful then Safe
    else if o.failed then BugDetected
    else if o.status == 124 then Timeout
    else Exception
  }

  /** The message of success outweighs that of failure, and both outweigh the exit status. */
  predicate CbmcMeans(o: CbmcOutput, r: CbmcResult) {
    && (r == Safe <==> o.successful)
    && (r == BugDetected <==> !o.successful && o.failed)
    && (r == Timeout <==> !o.successful && !o.failed && o.status == 124)
    && (r == Exception <==> !o.successful && !o.failed && o.status != 124)
  }

  function Conclude(tso: CbmcResult, pso: CbmcResult): CbmcConclusion {
    if tso == Safe && pso == BugDetected then WmmBug
    else if tso == BugDetected && pso == BugDetected then LogicBug
    else if tso == Safe && pso == Safe then NoBug
    else ErrorOrTimeout
  }

  /** The loop over the files: one row each, in order, every conclusion from its own two results. */
  method RunCbmc(files: seq<string>, tso: string -> CbmcOutput, pso: string -> CbmcOutput) returns (rows: seq<CbmcRow>)
    ensures |rows| == |files|
    ensures forall i :: 0 <= i < |files| ==>
      && rows[i].file == files[i]
      && CbmcMeans(tso(files[i]), rows[i].tso) && CbmcMeans(pso(files[i]), rows[i].pso)
      && (rows[i].conclusion == ErrorOrTimeout <==>
            rows[i].tso in {Timeout, Exception} || rows[i].pso in {Timeout, Exception}
            || (rows[i].tso == BugDetected && rows[i].pso == Safe))
      && (rows[i].conclusion == LogicBug <==> rows[i].tso == rows[i].pso == BugDetected)
      && (rows[i].conclusion == WmmBug <==> rows[i].tso == Safe && rows[i].pso == BugDetected)
      && (rows[i].conclusion == NoBug <==> rows[i].tso == rows[i].pso == Safe)
  {
    rows := [];
    for i := 0 to |files|
      invariant |rows| == i
      invariant forall j :: 0 <= j < i ==>
        var t, p := ReadCbmc(tso(files[j])), ReadCbmc(pso(files[j]));
        rows[j] == CbmcRow(files[j], t, p, Conclude(t, p))
    {
      var tsoResult := ReadCbmc(tso(files[i]));
      var psoResult := ReadCbmc(pso(files[i]));
      var conclusion := ErrorOrTimeout;
      if tsoResult == Safe && psoResult == BugDetected {
        conclusion := WmmBug;
      } else if tsoResult == BugDetected && psoResult == BugDetected {
        conclusion := LogicBug;
      } else if tsoResult == Safe && psoResult == Safe {
        conclusion := NoBug;
      }
      rows := rows + [CbmcRow(files[i], tsoResult, psoResult, conclusion)];
    }
  }

  function Verdict(bug: bool): CbmcResult {
    if bug then BugDetected else Safe
  }

  /** On true verdicts the classifier is never at a loss, although it has no case for a program
      that fails under TSO and not under PSO: there is none. */
  lemma CbmcTable<A(!new), L(!new)>(p: Program<A, L>, c0: ScConf<A, L>, bad: seq<L> -> bool)
    ensures var k := Conclude(Verdict(TsoBug(p, c0, bad)), Verdict(PsoBug(p, c0, bad)));
      && k != ErrorOrTimeout
      && (k == WmmBug <==> PsoBug(p, c0, bad) && !TsoBug(p, c0, bad))
      && (k == LogicBug <==> TsoBug(p, c0, bad))
      && (k == NoBug <==> !PsoBug(p, c0, bad))
      && (ScBug(p, c0, bad) ==> k == LogicBug)
  {
    BugsGrow(p, c0, bad);
  }

  // run_genmc_eval.sh

  /** The rewrite touches relaxed stores only; ordinary and release stores stay as they are. */
  function Harden<A>(op: Op<A>): Op<A> {
    if op.Store? && op.ord == Relaxed then op.(ord := SeqCst) else op
  }

  function Rewrite<A(==), L>(p: Program<A, L>): Program<A, L> {
    Program((t: nat, l: L) => Harden(p.op(t, l)), p.after)
  }

  /** Under sequential consistency the rewrite changes nothing. */
  lemma {:induction false} RewriteKeepsSc<A, L>(p: Program<A, L>, c0: ScConf<A, L>, sched: seq<nat>)
    ensures ScExec(Rewrite(p), c0, sched) == ScExec(p, c0, sched)
  {
    if sched != [] {
      RewriteKeepsSc(p, c0, sched[..|sched| - 1]);
    }
  }

  /** Every buffered store of the program is one the rewrite catches. */
  ghost predicate OnlyRelaxedStores<A, L(!new)>(p: Program<A, L>) {
    forall t: nat, l: L :: IsBuffered(p.op(t, l)) ==> p.op(t, l).ord == Relaxed
  }

  lemma {:induction false} NeverDirty<A, L(!new)>(p: Program<A, L>, c0: ScConf<A, L>, sched: seq<nat>, t: nat)
    requires OnlyRelaxedStores(p)
    ensures !Dirty(Rewrite(p), c0, sched, t)
  {
    if sched != [] {
      NeverDirty(p, c0, sched[..|sched| - 1], t);
    }
  }

  lemma RewriteIsFenced<A, L(!new)>(p: Program<A, L>, c0: ScConf<A, L>)
    requires OnlyRelaxedStores(p)
    ensures FencedInSc(Rewrite(p), c0) && FencedForPso(Rewrite(p), c0)
  {
    forall sched: seq<nat>, t: nat ensures !Dirty(Rewrite(p), c0, sched, t) {
      NeverDirty(p, c0, sched, t);
    }
  }

  lemma RewriteKeepsScBugs<A(!new), L(!new)>(p: Program<A, L>, c0: ScConf<A, L>, bad: seq<L> -> bool)
    ensures ScBug(p, c0, bad) <==> ScBug(Rewrite(p), c0, bad)
  {
    if sched :| bad(ScExec(p, c0, sched).loc) { RewriteKeepsSc(p, c0, sched); }
    if sched :| bad(ScExec(Rewrite(p), c0, sched).loc) { RewriteKeepsSc(p, c0, sched); }
  }

  /** If the rewritten program is fenced it has, under TSO, exactly the violations the original has
      under sequential consistency. */
  lemma RewriteShowsScBugs<A(!new), L(!new)>(p: Program<A, L>, c0: ScConf<A, L>, bad: seq<L> -> bool)
    requires FencedInSc(Rewrite(p), c0)
    ensures ScBug(p, c0, bad) <==> TsoBug(Rewrite(p), c0, bad)
  {
    BugsGrow(Rewrite(p), c0, bad);
    RewriteKeepsScBugs(p, c0, bad);
    if ts :| bad(TsoExec(Rewrite(p), TsoInit(c0), ts).loc) {
      var sched := FencedTsoIsSc(Rewrite(p), c0, ts);
      assert ScBug(Rewrite(p), c0, bad);
    }
  }

  /** And under PSO, if it is fenced for that. */
  lemma RewriteShowsScBugsOnPso<A(!new), L(!new)>(p: Program<A, L>, c0: ScConf<A, L>, bad: seq<L> -> bool)
    requires FencedForPso(Rewrite(p), c0)
    ensures ScBug(p, c0, bad) <==> PsoBug(Rewrite(p), c0, bad)
  {
    BugsGrow(Rewrite(p), c0, bad);
    RewriteKeepsScBugs(p, c0, bad);
    if ps :| bad(PsoExec(Rewrite(p), PsoInit(c0), ps).loc) {
      var sched := FencedPsoIsSc(Rewrite(p), c0, ps);
      assert ScBug(Rewrite(p), c0, bad);
    }
  }

  datatype GenmcOutput = GenmcOutput(violation: bool, race: bool, noErrors: bool)

  datatype GenmcFlag = Failed | Success | Error

  datatype GenmcConclusion = ConfirmedWmmBug | GenmcLogicBug | FalseNegative | ErrorCheckLog

  function ConcludeGenmc(relaxed: GenmcFlag, sc: GenmcFlag): GenmcConclusion {
    if relaxed == Failed && sc == Success then ConfirmedWmmBug
    else if relaxed == Failed && sc == Failed then GenmcLogicBug
    else if relaxed == Success then FalseNegative
    else ErrorCheckLog
  }

  datatype GenmcRow = GenmcRow(file: string, relaxed: GenmcFlag, sc: GenmcFlag, conclusion: GenmcConclusion)

  /** A violation outweighs a race, and both outweigh the report of no errors. */
  function ReadGenmc(o: GenmcOutput): GenmcFlag {
    if o.violation then Failed
    else if o.race then Failed
    else if o.noErrors then Success
    else Error
  }

  predicate GenmcMeans(o: GenmcOutput, r: GenmcFlag) {
    && (r == Failed <==> o.violation || o.race)
    && (r == Success <==> !o.violation && !o.race && o.noErrors)
    && (r == Error <==> !o.violation && !o.race && !o.noErrors)
  }

  /** The loop over the files, given what the tool prints for each and for its rewrite. */
  method RunGenmc(files: seq<string>, relaxed: string -> GenmcOutput, rewritten: string -> GenmcOutput)
      returns (rows: seq<GenmcRow>)
    ensures |rows| == |files|
    ensures forall i :: 0 <= i < |files| ==>
      && rows[i].file == files[i]
      && GenmcMeans(relaxed(files[i]), rows[i].relaxed) && GenmcMeans(rewritten(files[i]), rows[i].sc)
      && (rows[i].conclusion == ErrorCheckLog <==>
            rows[i].relaxed == Error || (rows[i].relaxed == Failed && rows[i].sc == Error))
      && (rows[i].conclusion == FalseNegative <==> rows[i].relaxed == Success)
      && (rows[i].conclusion == ConfirmedWmmBug <==> rows[i].relaxed == Failed && rows[i].sc == Success)
      && (rows[i].conclusion == GenmcLogicBug <==> rows[i].relaxed == rows[i].sc == Failed)
  {
    rows := [];
    for i := 0 to |files|
      invariant |rows| == i
      invariant forall j :: 0 <= j < i ==>
        var r, s := ReadGenmc(relaxed(files[j])), ReadGenmc(rewritten(files[j]));
        rows[j] == GenmcRow(files[j], r, s, ConcludeGenmc(r, s))
    {
      var relaxedFlag := ReadGenmc(relaxed(files[i]));
      var scFlag := ReadGenmc(rewritten(files[i]));
      var conclusion := ErrorCheckLog;
      if relaxedFlag == Failed && scFlag == Success {
        conclusion := ConfirmedWmmBug;
      } else if relaxedFlag == Failed && scFlag == Failed {
        conclusion := GenmcLogicBug;
      } else if relaxedFlag == Success {
        conclusion := FalseNegative;
      }
      rows := rows + [GenmcRow(files[i], relaxedFlag, scFlag, conclusion)];
    }
  }

  function Flag(bug: bool): GenmcFlag {
    if bug then Failed else Success
  }

  /** With true verdicts of TSO for both columns, "Confirmed WMM Bug" says that the violation needs
      reordering and "Logic Bug" that it does not. */
  lemma GenmcTable<A(!new), L(!new)>(p: Program<A, L>, c0: ScConf<A, L>, bad: seq<L> -> bool)
    requires FencedInSc(Rewrite(p), c0)
    ensures var k := ConcludeGenmc(Flag(TsoBug(p, c0, bad)), Flag(TsoBug(Rewrite(p), c0, bad)));
      && (k == ConfirmedWmmBug <==> TsoBug(p, c0, bad) && !ScBug(p, c0, bad))
      && (k == GenmcLogicBug <==> ScBug(p, c0, bad))
      && k != ErrorCheckLog
  {
    RewriteShowsScBugs(p, c0, bad);
    BugsGrow(p, c0, bad);
  }

  /** The same for PSO. */
  lemma GenmcTableOnPso<A(!new), L(!new)>(p: Program<A, L>, c0: ScConf<A, L>, bad: seq<L> -> bool)
    requires FencedForPso(Rewrite(p), c0)
    ensures var k := ConcludeGenmc(Flag(PsoBug(p, c0, bad)), Flag(PsoBug(Rewrite(p), c0, bad)));
      && (k == ConfirmedWmmBug <==> PsoBug(p, c0, bad) && !ScBug(p, c0, bad))
      && (k == GenmcLogicBug <==> ScBug(p, c0, bad))
      && k != ErrorCheckLog
  {
    RewriteShowsScBugsOnPso(p, c0, bad);
    BugsGrow(p, c0, bad);
  }
}
