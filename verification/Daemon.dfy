/** Ticks of the scheduled daemon and the execution history they leave (`RunSync` of package `service`,
    `executeSync` of package `scheduler`). */
module Daemon {
  import opened Domain
  import opened Config
  import opened Adapter
  import opened Execution
  import opened Sync
  import opened Trees
  import opened Progress
  import opened FileLocks
  import LockProtocol
  import Executor
  import Ignore
  import Planner
  import PlannerSpec
  import Service

  datatype ExecutionRecord = ExecutionRecord(ruleName: string, failed: bool, files: nat, bytes: nat)

  function RecordOf(rule: string, r: RunResult): ExecutionRecord {
    match r
    case Synced(files, bytes) => ExecutionRecord(rule, false, files, bytes)
    case _ => ExecutionRecord(rule, true, 0, 0)
  }

  function RuleOf(r: RuleConfig): Rule
    requires r.mode.Some?
  {
    Rule(r.name, r.mode.value, r.ignorePatterns, r.strategy)
  }

  /** A rule is planned with its own mode, strategy and patterns. */
  lemma RuleIsConfigured(r: RuleConfig, os: Ignore.Platform, p: string)
    requires r.mode.Some?
    ensures var pol := Planner.PolicyOf(RuleOf(r), r.mode.value, os);
            && pol.mode == r.mode.value && pol.strategy == r.strategy && RuleOf(r).mode == r.mode.value
            && (pol.ignored(p) <==> Ignore.Ignored(p, r.ignorePatterns, os))
  {
  }

  /** The adapter opened for an endpoint. */
  function StoreOf(stores: map<string, LocalAdapter>, endpoint: string): LocalAdapter
    requires endpoint in stores
  {
    stores[endpoint]
  }

  ghost predicate Runs(pol: PlannerSpec.Policy, s0: Sides, sums: Sums, available: bool) {
    !Executor.PlanFails(s0, pol.ignored) && available && Service.Clear(pol, s0, sums)
  }

  /** Nothing changes unless the rule is planned and the lock can be had; then the trees are where the run of its plan
      ends, complete or not. */
  ghost predicate Ended(pol: PlannerSpec.Policy, s0: Sides, s: Sides, sums: Sums, available: bool, stamp: Stamps) {
    if Executor.PlanFails(s0, pol.ignored) || !available then s == s0 else Service.Ends(pol, s0, s, sums, stamp)
  }

  /** One rule of an accepted configuration between two local endpoints: the lookups, the plan, the run under the
      lock. Its record tells of success exactly when both stores could be listed, the lock could be had and nothing
      stood in the way of the plan; then the run achieved what the mode promises. */
  method AttemptRule(c: Config, r: RuleConfig, stores: map<string, LocalAdapter>, os: Ignore.Platform, lock: FileLock,
                     now: int, reporter: CallbackReporter, stamp: Stamps, ghost parses: string -> bool)
    returns (record: ExecutionRecord)
    requires Acceptable(c, parses) && r in c.rules && lock.Valid()
    requires r.source in stores && r.target in stores && StoreOf(stores, r.source) != StoreOf(stores, r.target)
    requires Sound(Sides(StoreOf(stores, r.source).tree, StoreOf(stores, r.target).tree))
    modifies StoreOf(stores, r.source)`tree, StoreOf(stores, r.target)`tree, reporter
    modifies lock`info, lock.dir`file, lock.dir`nextInode
    ensures lock.Valid() && lock.Available() == old(lock.Available()) && record.ruleName == r.name && r.mode.Some?
    ensures old(lock.info).None? ==> lock.info.None?
    ensures var source, target := StoreOf(stores, r.source), StoreOf(stores, r.target);
            var s0, s := old(Sides(source.tree, target.tree)), Sides(source.tree, target.tree);
            var pol := Planner.PolicyOf(RuleOf(r), r.mode.value, os);
            var sums := Sums(source.sum, target.sum);
            && (record.failed <==> !Runs(pol, s0, sums, old(lock.Available())))
            && (record.failed ==> record.files == record.bytes == 0)
            && (!record.failed ==>
                  && Service.Achieved(pol, s0, s, sums, stamp)
                  && Service.Tells(record.files, record.bytes, pol, s0, sums))
            && Service.Kept(pol, s0, s, sums) && Ended(pol, s0, s, sums, old(lock.Available()), stamp)
  {
    var rule, source, target, sourceVia, targetVia := LookUp(c, r, parses);
    var sourceStore, targetStore := StoreOf(stores, source.value.name), StoreOf(stores, target.value.name);
    var result := Service.SyncRule(RuleOf(rule.value), sourceStore, targetStore, os, lock, now, reporter, stamp);
    return RecordOf(r.name, result);
  }

  ghost predicate AnyFailed(records: seq<ExecutionRecord>) {
    exists i :: 0 <= i < |records| && records[i].failed
  }

  /** The trees of all endpoints, by name. */
  type Snapshot = map<string, Tree>

  /** The times the stores put on what a rule writes on a tick. */
  type Clock = (nat, string) -> Stamps

  /** What happens to an endpoint's tree from outside before a tick. */
  type Change = (nat, string, Tree) -> Tree

  ghost predicate KeepsShape(change: Change) {
    forall tick, e, t :: InShape(t) ==> InShape(change(tick, e, t))
  }

  function Changed(trees: Snapshot, tick: nat, change: Change): Snapshot {
    map e | e in trees :: change(tick, e, trees[e])
  }

  /** The lock file and the processes known to be gone, as a tick finds them. */
  datatype LockSight = LockSight(file: LockProtocol.LockFile, dead: set<nat>) {
    /** There is no lock file, or it holds the record of a process that is gone. */
    predicate Free() {
      file.Absent? || (file.content.Some? && file.content.value.pid in dead)
    }
  }

  type Locks = nat -> LockSight

  /** What the daemon works on: the configuration, one adapter for each endpoint, the lock and the reporter. */
  class Host {
    const config: Config
    const stores: map<string, LocalAdapter>
    const lock: FileLock
    const os: Ignore.Platform
    const reporter: CallbackReporter

    constructor (config: Config, stores: map<string, LocalAdapter>, lock: FileLock, os: Ignore.Platform,
                 reporter: CallbackReporter)
      ensures this.config == config && this.stores == stores && this.lock == lock && this.os == os
      ensures this.reporter == reporter
    {
      this.config, this.stores, this.lock, this.os, this.reporter := config, stores, lock, os, reporter;
    }

    /** Every rule's endpoints are local and open, each with its own adapter, no tree is out of shape, and this process
        does not hold the lock. */
    ghost predicate Valid()
      reads this, stores.Values, lock
    {
      && lock.Valid() && lock.info.None?
      && (forall r :: r in config.rules ==> r.source in stores && r.target in stores)
      && (forall d, e :: d in stores && e in stores && d != e ==> stores[d] != stores[e])
      && (forall e :: e in stores ==> InShape(stores[e].tree))
    }

    ghost function Trees(): Snapshot
      reads this, stores.Values
    {
      map e | e in stores :: stores[e].tree
    }

    /** The record of one rule tells what its attempt found and did: failure exactly if the trees before could not be
        listed, the lock could not be had or something stood in the way of the plan; no other endpoint changes. */
    ghost predicate Told(r: RuleConfig, before: Snapshot, after: Snapshot, available: bool, stamp: Stamps,
                         record: ExecutionRecord)
    {
      && r.mode.Some? && r.source in stores && r.target in stores
      && before.Keys == after.Keys == stores.Keys
      && (forall e :: e in stores && e != r.source && e != r.target ==> after[e] == before[e])
      && (var s0, s := Sides(before[r.source], before[r.target]), Sides(after[r.source], after[r.target]);
          var pol := Planner.PolicyOf(RuleOf(r), r.mode.value, os);
          var sums := Sums(stores[r.source].sum, stores[r.target].sum);
          && record.ruleName == r.name
          && (record.failed <==> !Runs(pol, s0, sums, available))
          && (record.failed ==> record.files == record.bytes == 0)
          && (!record.failed ==>
                && Service.Achieved(pol, s0, s, sums, stamp)
                && Service.Tells(record.files, record.bytes, pol, s0, sums))
          && Service.Kept(pol, s0, s, sums) && Ended(pol, s0, s, sums, available, stamp))
    }

    /** Between two ticks anybody may change the trees and the lock file. */
    method Disturb(tick: nat, change: Change, seen: LockSight)
      requires Valid() && KeepsShape(change)
      modifies stores.Values, lock.dir`file, lock.dir`dead
      ensures Valid() && Trees() == Changed(old(Trees()), tick, change) && lock.Available() == seen.Free()
    {
      var rest := stores.Keys;
      while rest != {}
        invariant rest <= stores.Keys
        invariant forall e :: e in rest ==> stores[e].tree == old(stores[e].tree)
        invariant forall e :: e in stores.Keys - rest ==> stores[e].tree == change(tick, e, old(stores[e].tree))
      {
        var e :| e in rest;
        rest := rest - {e};
        stores[e].tree := change(tick, e, stores[e].tree);
      }
      lock.dir.file, lock.dir.dead := seen.file, seen.dead;
    }

    method Attempt(r: RuleConfig, tick: nat, stamp: Stamps, ghost parses: string -> bool)
      returns (record: ExecutionRecord)
      requires Valid() && Acceptable(config, parses) && r in config.rules
      modifies stores.Values, reporter, lock`info, lock.dir`file, lock.dir`nextInode
      ensures Valid() && lock.Available() == old(lock.Available())
      ensures Told(r, old(Trees()), Trees(), old(lock.Available()), stamp, record)
    {
      RuleEndpoints(config, r, parses);
      record := AttemptRule(config, r, stores, os, lock, tick, reporter, stamp, parses);
    }

    /** The first `i` rules have been attempted one after the other since the trees were `before`: each has its one
        record, which tells what its attempt found and did. */
    ghost predicate Attempted(rules: seq<RuleConfig>, i: nat, records: seq<ExecutionRecord>, states: seq<Snapshot>,
                              before: Snapshot, available: bool, clock: Clock, tick: nat)
      requires i <= |rules|
      reads this, stores.Values, lock, lock.dir
    {
      && Valid() && lock.Available() == available
      && AllTold(this, rules[..i], records, states, available, clock, tick)
      && states[0] == before && states[i] == Trees()
    }

    /** The next rule of a list. */
    method AttemptNext(rules: seq<RuleConfig>, i: nat, tick: nat, clock: Clock, ghost parses: string -> bool,
                       ghost records: seq<ExecutionRecord>, ghost states: seq<Snapshot>, ghost before: Snapshot,
                       ghost available: bool)
      returns (record: ExecutionRecord, ghost after: Snapshot)
      requires Acceptable(config, parses) && i < |rules| && rules[i] in config.rules
      requires Attempted(rules, i, records, states, before, available, clock, tick)
      modifies stores.Values, reporter, lock`info, lock.dir`file, lock.dir`nextInode
      ensures Attempted(rules, i + 1, records + [record], states + [after], before, available, clock, tick)
    {
      record := Attempt(rules[i], tick, clock(tick, rules[i].name), parses);
      after := Trees();
      ToldNext(this, rules, i, records, states, available, clock, tick, record, after);
    }
  }

  ghost predicate InShape(t: Tree) {
    WellFormed(t) && NoTemp(t)
  }

  lemma RuleEndpoints(c: Config, r: RuleConfig, parses: string -> bool)
    requires Acceptable(c, parses) && r in c.rules
    ensures r.source != r.target
  {
    assert RuleOk(r, EndpointNames(c.endpoints));
  }

  /** The records of a list of rules, attempted one after the other through the given states. */
  ghost predicate AllTold(host: Host, rules: seq<RuleConfig>, records: seq<ExecutionRecord>, states: seq<Snapshot>,
                          available: bool, clock: Clock, tick: nat)
  {
    && |records| == |rules| && |states| == |rules| + 1
    && forall i :: 0 <= i < |rules| ==>
         host.Told(rules[i], states[i], states[i + 1], available, clock(tick, rules[i].name), records[i])
  }

  lemma ToldNext(host: Host, rules: seq<RuleConfig>, i: nat, records: seq<ExecutionRecord>, states: seq<Snapshot>,
                 available: bool, clock: Clock, tick: nat, record: ExecutionRecord, after: Snapshot)
    requires i < |rules| && AllTold(host, rules[..i], records, states, available, clock, tick)
    requires host.Told(rules[i], states[i], after, available, clock(tick, rules[i].name), record)
    ensures AllTold(host, rules[..i + 1], records + [record], states + [after], available, clock, tick)
  {
    var more, next := records + [record], states + [after];
    forall j | 0 <= j < i + 1
      ensures host.Told(rules[..i + 1][j], next[j], next[j + 1], available, clock(tick, rules[..i + 1][j].name),
                        more[j])
    {
      assert rules[..i + 1][j] == rules[j] && next[j] == states[j];
      if j < i {
        assert rules[..i][j] == rules[j] && more[j] == records[j] && next[j + 1] == states[j + 1];
      } else {
        assert more[j] == record && next[j + 1] == after;
      }
    }
  }

  lemma FailedNext(records: seq<ExecutionRecord>, record: ExecutionRecord)
    ensures AnyFailed(records + [record]) <==> AnyFailed(records) || record.failed
  {
    var more := records + [record];
    assert forall j :: 0 <= j < |records| ==> more[j] == records[j];
    assert more[|records|] == record;
  }

  /** The same, when the next rule is the one of a list of one. */
  lemma OneNext(host: Host, rules: seq<RuleConfig>, i: nat, records: seq<ExecutionRecord>, states: seq<Snapshot>,
                available: bool, clock: Clock, tick: nat, more: seq<ExecutionRecord>, after: seq<Snapshot>)
    requires i < |rules| && AllTold(host, rules[..i], records, states, available, clock, tick)
    requires AllTold(host, [rules[i]][..1], more, after, available, clock, tick) && after[0] == states[i]
    ensures AllTold(host, rules[..i + 1], records + more, states + [after[1]], available, clock, tick)
    ensures AnyFailed(records + more) <==> AnyFailed(records) || AnyFailed(more)
  {
    assert [rules[i]][..1] == [rules[i]] && more == [more[0]];
    ToldNext(host, rules, i, records, states, available, clock, tick, more[0], after[1]);
    FailedNext(records, more[0]);
    assert AnyFailed(more) <==> more[0].failed;
  }

  class Runner {
    const host: Host
    var history: seq<ExecutionRecord>

    constructor (host: Host)
      ensures this.host == host && history == []
    {
      this.host := host;
      history := [];
    }

    /** The first `i` rules have been attempted and recorded since the history was `had`. */
    ghost predicate Recorded(rules: seq<RuleConfig>, i: nat, records: seq<ExecutionRecord>, states: seq<Snapshot>,
                             had: seq<ExecutionRecord>, before: Snapshot, available: bool, clock: Clock, tick: nat)
      requires i <= |rules|
      reads this, host, host.stores.Values, host.lock, host.lock.dir
    {
      host.Attempted(rules, i, records, states, before, available, clock, tick) && history == had + records
    }

    /** Every rule is attempted and recorded once; one failure fails the call but not the other rules. */
    method RunRules(rules: seq<RuleConfig>, tick: nat, clock: Clock, ghost parses: string -> bool)
      returns (ok: bool, ghost records: seq<ExecutionRecord>, ghost states: seq<Snapshot>)
      requires host.Valid() && Acceptable(host.config, parses) && forall r :: r in rules ==> r in host.config.rules
      modifies `history, host.stores.Values, host.reporter
      modifies host.lock`info, host.lock.dir`file, host.lock.dir`nextInode
      ensures Recorded(rules, |rules|, records, states, old(history), old(host.Trees()), old(host.lock.Available()),
                       clock, tick)
      ensures ok <==> !AnyFailed(records)
    {
      ghost var had, before, available := history, host.Trees(), host.lock.Available();
      var errors := 0;
      records, states := [], [host.Trees()];
      for i := 0 to |rules|
        invariant Recorded(rules, i, records, states, had, before, available, clock, tick)
        invariant errors > 0 <==> AnyFailed(records)
      {
        var failed;
        failed, records, states := RunRule(rules, i, tick, clock, parses, records, states, had, before, available);
        if failed { errors := errors + 1; }
      }
      return errors == 0, records, states;
    }

    /** One attempt and its record. */
    method RunRule(rules: seq<RuleConfig>, i: nat, tick: nat, clock: Clock, ghost parses: string -> bool,
                   ghost records: seq<ExecutionRecord>, ghost states: seq<Snapshot>, ghost had: seq<ExecutionRecord>,
                   ghost before: Snapshot, ghost available: bool)
      returns (failed: bool, ghost told: seq<ExecutionRecord>, ghost through: seq<Snapshot>)
      requires Acceptable(host.config, parses) && i < |rules| && rules[i] in host.config.rules
      requires Recorded(rules, i, records, states, had, before, available, clock, tick)
      modifies `history, host.stores.Values, host.reporter
      modifies host.lock`info, host.lock.dir`file, host.lock.dir`nextInode
      ensures Recorded(rules, i + 1, told, through, had, before, available, clock, tick)
      ensures AnyFailed(told) <==> AnyFailed(records) || failed
    {
      ghost var after;
      var record;
      record, after := host.AttemptNext(rules, i, tick, clock, parses, records, states, before, available);
      history := history + [record];
      FailedNext(records, record);
      return record.failed, records + [record], states + [after];
    }

    /** One rule by name; an unknown one is an error that leaves no record. */
    method RunNamed(ruleName: string, tick: nat, clock: Clock, ghost parses: string -> bool)
      returns (ok: bool, ghost rules: seq<RuleConfig>, ghost records: seq<ExecutionRecord>, ghost states: seq<Snapshot>)
      requires host.Valid() && Acceptable(host.config, parses)
      modifies `history, host.stores.Values, host.reporter
      modifies host.lock`info, host.lock.dir`file, host.lock.dir`nextInode
      ensures Recorded(rules, |rules|, records, states, old(history), old(host.Trees()), old(host.lock.Available()),
                       clock, tick)
      ensures if ruleName in RuleNames(host.config.rules)
              then |rules| == 1 && rules[0] in host.config.rules && rules[0].name == ruleName
              else rules == []
      ensures ok <==> rules != [] && !AnyFailed(records)
    {
      var rule := GetRule(host.config, ruleName);
      if rule.None? { return false, [], [], [host.Trees()]; }
      var one := [rule.value];
      rules := one;
      ok, records, states := RunRules(one, tick, clock, parses);
    }

    /** An empty name means every scheduled rule. */
    method RunSync(ruleName: string, tick: nat, clock: Clock, ghost parses: string -> bool)
      returns (ok: bool, ghost rules: seq<RuleConfig>, ghost records: seq<ExecutionRecord>, ghost states: seq<Snapshot>)
      requires host.Valid() && Acceptable(host.config, parses)
      modifies `history, host.stores.Values, host.reporter
      modifies host.lock`info, host.lock.dir`file, host.lock.dir`nextInode
      ensures Recorded(rules, |rules|, records, states, old(history), old(host.Trees()), old(host.lock.Available()),
                       clock, tick)
      ensures if ruleName == "" then rules == Scheduled(host.config.rules)
              else if ruleName in RuleNames(host.config.rules)
              then |rules| == 1 && rules[0] in host.config.rules && rules[0].name == ruleName
              else rules == []
      ensures ok <==> !AnyFailed(records) && (ruleName != "" ==> ruleName in RuleNames(host.config.rules))
    {
      if ruleName != "" {
        ok, rules, records, states := RunNamed(ruleName, tick, clock, parses);
      } else {
        var scheduled := GetScheduledRules(host.config);
        ScheduledMembers(host.config.rules);
        rules := scheduled;
        ok, records, states := RunRules(scheduled, tick, clock, parses);
      }
    }
  }

  class Ticker {
    const runner: Runner
    const ruleNames: seq<string>
    var totalRuns: nat
    var successfulRuns: nat
    var failedRuns: nat

    /** The daemon's start: the scheduler is given the names of the scheduled rules. */
    constructor (runner: Runner)
      ensures this.runner == runner && ruleNames == RuleNames(Scheduled(runner.host.config.rules))
      ensures totalRuns == 0 && successfulRuns == 0 && failedRuns == 0
    {
      this.runner := runner;
      ruleNames := RuleNames(Scheduled(runner.host.config.rules));
      totalRuns, successfulRuns, failedRuns := 0, 0, 0;
    }

    /** The runner is asked for the `i`-th named rule. */
    method AskFor(i: nat, tick: nat, clock: Clock, ghost parses: string -> bool, ghost rule: RuleConfig)
      returns (ok: bool, ghost records: seq<ExecutionRecord>, ghost states: seq<Snapshot>)
      requires runner.host.Valid() && Acceptable(runner.host.config, parses)
      requires ruleNames == RuleNames(Scheduled(runner.host.config.rules))
      requires i < |ruleNames| && rule == Scheduled(runner.host.config.rules)[i]
      modifies runner`history, runner.host.stores.Values, runner.host.reporter
      modifies runner.host.lock`info, runner.host.lock.dir`file, runner.host.lock.dir`nextInode
      ensures runner.Recorded([rule], 1, records, states, old(runner.history), old(runner.host.Trees()),
                              old(runner.host.lock.Available()), clock, tick)
      ensures ok <==> !AnyFailed(records)
    {
      ScheduledIsNamed(runner.host.config, parses, i);
      ghost var one;
      ok, one, records, states := runner.RunSync(ruleNames[i], tick, clock, parses);
      RulesUnique(runner.host.config.rules, rule, one[0]);
      assert one == [rule];
    }

    /** The next named rule. */
    method RunOne(i: nat, tick: nat, clock: Clock, ghost parses: string -> bool, ghost rules: seq<RuleConfig>,
                  ghost records: seq<ExecutionRecord>, ghost states: seq<Snapshot>, ghost had: seq<ExecutionRecord>,
                  ghost before: Snapshot, ghost available: bool)
      returns (ok: bool, ghost told: seq<ExecutionRecord>, ghost through: seq<Snapshot>)
      requires Acceptable(runner.host.config, parses) && rules == Scheduled(runner.host.config.rules)
      requires ruleNames == RuleNames(rules) && i < |rules|
      requires runner.Recorded(rules, i, records, states, had, before, available, clock, tick)
      modifies runner`history, runner.host.stores.Values, runner.host.reporter
      modifies runner.host.lock`info, runner.host.lock.dir`file, runner.host.lock.dir`nextInode
      ensures runner.Recorded(rules, i + 1, told, through, had, before, available, clock, tick)
      ensures AnyFailed(told) <==> AnyFailed(records) || !ok
    {
      ghost var more, after;
      ok, more, after := AskFor(i, tick, clock, parses, rules[i]);
      OneNext(runner.host, rules, i, records, states, available, clock, tick, more, after);
      return ok, records + more, states + [after[1]];
    }

    /** The named rules one after the other. */
    method RunEach(tick: nat, clock: Clock, ghost parses: string -> bool)
      returns (hasError: bool, ghost records: seq<ExecutionRecord>, ghost states: seq<Snapshot>)
      requires runner.host.Valid() && Acceptable(runner.host.config, parses)
      requires ruleNames == RuleNames(Scheduled(runner.host.config.rules))
      modifies runner`history, runner.host.stores.Values, runner.host.reporter
      modifies runner.host.lock`info, runner.host.lock.dir`file, runner.host.lock.dir`nextInode
      ensures runner.Recorded(Scheduled(runner.host.config.rules), |ruleNames|, records, states, old(runner.history),
                              old(runner.host.Trees()), old(runner.host.lock.Available()), clock, tick)
      ensures hasError <==> AnyFailed(records)
    {
      ghost var rules, had := Scheduled(runner.host.config.rules), runner.history;
      ghost var before, available := runner.host.Trees(), runner.host.lock.Available();
      hasError, records, states := false, [], [runner.host.Trees()];
      for i := 0 to |ruleNames|
        invariant runner.Recorded(rules, i, records, states, had, before, available, clock, tick)
        invariant hasError <==> AnyFailed(records)
      {
        var ok;
        ok, records, states := RunOne(i, tick, clock, parses, rules, records, states, had, before, available);
        if !ok { hasError := true; }
      }
    }

    /** What a tick runs. With no rule names at all the runner is asked once, for every scheduled rule. */
    method RunScheduled(tick: nat, clock: Clock, ghost parses: string -> bool)
      returns (hasError: bool, ghost records: seq<ExecutionRecord>, ghost states: seq<Snapshot>)
      requires runner.host.Valid() && Acceptable(runner.host.config, parses)
      requires ruleNames == RuleNames(Scheduled(runner.host.config.rules))
      modifies runner`history, runner.host.stores.Values, runner.host.reporter
      modifies runner.host.lock`info, runner.host.lock.dir`file, runner.host.lock.dir`nextInode
      ensures runner.Recorded(Scheduled(runner.host.config.rules), |ruleNames|, records, states, old(runner.history),
                              old(runner.host.Trees()), old(runner.host.lock.Available()), clock, tick)
      ensures hasError <==> AnyFailed(records)
    {
      if |ruleNames| == 0 {
        ghost var rules;
        var ok;
        ok, rules, records, states := runner.RunSync("", tick, clock, parses);
        hasError := !ok;
      } else {
        hasError, records, states := RunEach(tick, clock, parses);
      }
    }

    /** One tick: each scheduled rule is attempted and recorded once, in order, and the tick counts as failed exactly
        when one of the records does. */
    method ExecuteSync(tick: nat, clock: Clock, ghost parses: string -> bool)
      returns (ghost records: seq<ExecutionRecord>, ghost states: seq<Snapshot>)
      requires runner.host.Valid() && Acceptable(runner.host.config, parses)
      requires ruleNames == RuleNames(Scheduled(runner.host.config.rules))
      modifies `totalRuns, `failedRuns, `successfulRuns
      modifies runner`history, runner.host.stores.Values, runner.host.reporter
      modifies runner.host.lock`info, runner.host.lock.dir`file, runner.host.lock.dir`nextInode
      ensures runner.Recorded(Scheduled(runner.host.config.rules), |ruleNames|, records, states, old(runner.history),
                              old(runner.host.Trees()), old(runner.host.lock.Available()), clock, tick)
      ensures totalRuns == old(totalRuns) + 1
      ensures failedRuns == old(failedRuns) + (if AnyFailed(records) then 1 else 0)
      ensures successfulRuns == old(successfulRuns) + (if AnyFailed(records) then 0 else 1)
    {
      var hasError;
      hasError, records, states := RunScheduled(tick, clock, parses);
      Count(hasError);
    }

    method Count(hasError: bool)
      modifies `totalRuns, `failedRuns, `successfulRuns
      ensures totalRuns == old(totalRuns) + 1
      ensures failedRuns == old(failedRuns) + (if hasError then 1 else 0)
      ensures successfulRuns == old(successfulRuns) + (if hasError then 0 else 1)
    {
      totalRuns := totalRuns + 1;
      if hasError {
        failedRuns := failedRuns + 1;
      } else {
        successfulRuns := successfulRuns + 1;
      }
    }
  }

  // ----- many ticks

  /** One tick: its records, and the trees its attempts went through. */
  datatype TickRun = TickRun(records: seq<ExecutionRecord>, states: seq<Snapshot>)

  function Records(runs: seq<TickRun>): seq<ExecutionRecord> {
    if runs == [] then [] else Records(runs[..|runs| - 1]) + runs[|runs| - 1].records
  }

  ghost function FailedTicks(runs: seq<TickRun>): (n: nat)
    ensures n <= |runs|
  {
    if runs == [] then 0
    else FailedTicks(runs[..|runs| - 1]) + if AnyFailed(runs[|runs| - 1].records) then 1 else 0
  }

  /** The trees the last tick left. */
  function LeftBy(runs: seq<TickRun>, start: Snapshot): Snapshot {
    if runs == [] || runs[|runs| - 1].states == [] then start
    else runs[|runs| - 1].states[|runs[|runs| - 1].states| - 1]
  }

  /** A tick starts from what the last one left, changed from outside, and its records tell what its attempts found and
      did under the lock file as the tick found it. */
  ghost predicate TickTold(host: Host, rules: seq<RuleConfig>, before: Snapshot, tick: nat, run: TickRun,
                           change: Change, locks: Locks, clock: Clock)
  {
    && AllTold(host, rules, run.records, run.states, locks(tick).Free(), clock, tick)
    && run.states[0] == Changed(before, tick, change)
  }

  ghost predicate TicksTold(host: Host, rules: seq<RuleConfig>, runs: seq<TickRun>, start: Snapshot, change: Change,
                            locks: Locks, clock: Clock)
  {
    forall k :: 0 <= k < |runs| ==> TickTold(host, rules, LeftBy(runs[..k], start), k, runs[k], change, locks, clock)
  }

  lemma TicksNext(host: Host, rules: seq<RuleConfig>, runs: seq<TickRun>, start: Snapshot, change: Change,
                  locks: Locks, clock: Clock, run: TickRun)
    requires TicksTold(host, rules, runs, start, change, locks, clock)
    requires TickTold(host, rules, LeftBy(runs, start), |runs|, run, change, locks, clock)
    ensures TicksTold(host, rules, runs + [run], start, change, locks, clock)
  {
    var more := runs + [run];
    forall k | 0 <= k < |more|
      ensures TickTold(host, rules, LeftBy(more[..k], start), k, more[k], change, locks, clock)
    {
      if k < |runs| {
        assert more[..k] == runs[..k] && more[k] == runs[k];
        assert TickTold(host, rules, LeftBy(runs[..k], start), k, runs[k], change, locks, clock);
      } else {
        assert more[..k] == runs;
      }
    }
  }

  lemma CountNext(runs: seq<TickRun>, run: TickRun, start: Snapshot)
    ensures Records(runs + [run]) == Records(runs) + run.records
    ensures FailedTicks(runs + [run]) == FailedTicks(runs) + if AnyFailed(run.records) then 1 else 0
    ensures run.states != [] ==> LeftBy(runs + [run], start) == run.states[|run.states| - 1]
  {
    assert (runs + [run])[..|runs|] == runs;
  }

  /** The ticker after these runs: history and counters are theirs. */
  ghost predicate Ticked(ticker: Ticker, runs: seq<TickRun>, start: Snapshot, had: seq<ExecutionRecord>)
    reads ticker, ticker.runner, ticker.runner.host, ticker.runner.host.stores.Values, ticker.runner.host.lock
  {
    && ticker.runner.host.Valid() && LeftBy(runs, start) == ticker.runner.host.Trees()
    && ticker.runner.history == had + Records(runs)
    && ticker.totalRuns == |runs| && ticker.failedRuns == FailedTicks(runs)
    && ticker.successfulRuns == |runs| - FailedTicks(runs)
  }

  /** Over any number of ticks, whatever happens to the trees, to the lock file and to other processes in between, each
      scheduled rule gets exactly one record per tick, in configuration order, which tells what its attempt found and
      did; and the failed runs are exactly the ticks with a failed record. `HistoryIsDetermined` shows that this leaves
      no choice. */
  method RunTicks(ticker: Ticker, n: nat, change: Change, locks: Locks, clock: Clock,
                  ghost parses: string -> bool)
    returns (ghost runs: seq<TickRun>)
    requires ticker.runner.host.Valid() && Acceptable(ticker.runner.host.config, parses) && KeepsShape(change)
    requires ticker.ruleNames == RuleNames(Scheduled(ticker.runner.host.config.rules))
    requires ticker.totalRuns == 0 && ticker.failedRuns == 0 && ticker.successfulRuns == 0
    modifies ticker, ticker.runner`history, ticker.runner.host.stores.Values, ticker.runner.host.reporter
    modifies ticker.runner.host.lock`info, ticker.runner.host.lock.dir
    ensures |runs| == n && Ticked(ticker, runs, old(ticker.runner.host.Trees()), old(ticker.runner.history))
    ensures TicksTold(ticker.runner.host, Scheduled(ticker.runner.host.config.rules), runs,
                      old(ticker.runner.host.Trees()), change, locks, clock)
  {
    ghost var start, had := ticker.runner.host.Trees(), ticker.runner.history;
    runs := [];
    for k := 0 to n
      invariant |runs| == k && Ticked(ticker, runs, start, had)
      invariant TicksTold(ticker.runner.host, Scheduled(ticker.runner.host.config.rules), runs, start, change, locks,
                          clock)
    {
      ghost var run := RunTick(ticker, k, change, locks, clock, parses, runs, start, had);
      TicksNext(ticker.runner.host, Scheduled(ticker.runner.host.config.rules), runs, start, change, locks, clock, run);
      runs := runs + [run];
    }
  }

  method RunTick(ticker: Ticker, k: nat, change: Change, locks: Locks, clock: Clock, ghost parses: string -> bool,
                 ghost runs: seq<TickRun>, ghost start: Snapshot, ghost had: seq<ExecutionRecord>)
    returns (ghost run: TickRun)
    requires Acceptable(ticker.runner.host.config, parses) && KeepsShape(change)
    requires ticker.ruleNames == RuleNames(Scheduled(ticker.runner.host.config.rules))
    requires |runs| == k && Ticked(ticker, runs, start, had)
    modifies ticker, ticker.runner`history, ticker.runner.host.stores.Values, ticker.runner.host.reporter
    modifies ticker.runner.host.lock`info, ticker.runner.host.lock.dir
    ensures Ticked(ticker, runs + [run], start, had)
    ensures TickTold(ticker.runner.host, Scheduled(ticker.runner.host.config.rules), LeftBy(runs, start), k, run,
                     change, locks, clock)
  {
    run := ChangeAndTick(ticker, k, change, locks, clock, parses);
    CountNext(runs, run, start);
  }

  method ChangeAndTick(ticker: Ticker, k: nat, change: Change, locks: Locks, clock: Clock, ghost parses: string -> bool)
    returns (ghost run: TickRun)
    requires ticker.runner.host.Valid() && Acceptable(ticker.runner.host.config, parses) && KeepsShape(change)
    requires ticker.ruleNames == RuleNames(Scheduled(ticker.runner.host.config.rules))
    modifies ticker, ticker.runner`history, ticker.runner.host.stores.Values, ticker.runner.host.reporter
    modifies ticker.runner.host.lock`info, ticker.runner.host.lock.dir
    ensures ticker.runner.host.Valid()
    ensures TickTold(ticker.runner.host, Scheduled(ticker.runner.host.config.rules), old(ticker.runner.host.Trees()), k,
                     run, change, locks, clock)
    ensures run.states[|run.states| - 1] == ticker.runner.host.Trees()
    ensures ticker.runner.history == old(ticker.runner.history) + run.records
    ensures ticker.totalRuns == old(ticker.totalRuns) + 1
    ensures ticker.failedRuns == old(ticker.failedRuns) + (if AnyFailed(run.records) then 1 else 0)
    ensures ticker.successfulRuns == old(ticker.successfulRuns) + (if AnyFailed(run.records) then 0 else 1)
  {
    ticker.runner.host.Disturb(k, change, locks(k));
    ghost var records, states;
    records, states := ticker.ExecuteSync(k, clock, parses);
    run := TickRun(records, states);
    ghost var rules := Scheduled(ticker.runner.host.config.rules);
    assert rules[..|rules|] == rules;
  }

  /** On a tick that finds the lock free, a rule's record tells of failure exactly if its trees could not be listed or
      something stood in the way of its plan, and the trees are where the run of the plan ends. */
  lemma FreeTick(host: Host, rules: seq<RuleConfig>, runs: seq<TickRun>, start: Snapshot, change: Change, locks: Locks,
                 clock: Clock, tick: nat, i: nat)
    requires TicksTold(host, rules, runs, start, change, locks, clock) && tick < |runs| && i < |rules|
    requires locks(tick).Free()
    ensures var r, run := rules[i], runs[tick];
            && |run.records| == |rules| && |run.states| == |rules| + 1 && r.mode.Some?
            && r.source in run.states[i] && r.target in run.states[i]
            && r.source in run.states[i + 1] && r.target in run.states[i + 1]
            && r.source in host.stores && r.target in host.stores
    ensures var r, run := rules[i], runs[tick];
            var s0 := Sides(run.states[i][r.source], run.states[i][r.target]);
            var s := Sides(run.states[i + 1][r.source], run.states[i + 1][r.target]);
            var pol := Planner.PolicyOf(RuleOf(r), r.mode.value, host.os);
            var sums := Sums(host.stores[r.source].sum, host.stores[r.target].sum);
            && run.records[i].ruleName == r.name
            && (run.records[i].failed <==> Executor.PlanFails(s0, pol.ignored) || !Service.Clear(pol, s0, sums))
            && (!Executor.PlanFails(s0, pol.ignored) ==> Service.Ends(pol, s0, s, sums, clock(tick, r.name)))
  {
    var run := runs[tick];
    assert TickTold(host, rules, LeftBy(runs[..tick], start), tick, run, change, locks, clock);
    assert host.Told(rules[i], run.states[i], run.states[i + 1], true, clock(tick, rules[i].name), run.records[i]);
  }

  /** On a tick that finds the lock taken, every record tells of failure and no tree changes. */
  lemma {:induction false} BusyTick(host: Host, rules: seq<RuleConfig>, runs: seq<TickRun>, start: Snapshot,
                                    change: Change, locks: Locks, clock: Clock, tick: nat, i: nat)
    requires TicksTold(host, rules, runs, start, change, locks, clock) && tick < |runs| && i <= |rules|
    requires !locks(tick).Free()
    ensures var run := runs[tick];
            && |run.records| == |rules| && |run.states| == |rules| + 1
            && run.states[i] == Changed(LeftBy(runs[..tick], start), tick, change)
            && forall j :: 0 <= j < i ==> run.records[j].failed
  {
    var run := runs[tick];
    assert TickTold(host, rules, LeftBy(runs[..tick], start), tick, run, change, locks, clock);
    if i > 0 {
      BusyTick(host, rules, runs, start, change, locks, clock, tick, i - 1);
      var r := rules[i - 1];
      assert host.Told(r, run.states[i - 1], run.states[i], false, clock(tick, r.name), run.records[i - 1]);
      assert run.states[i] == run.states[i - 1];
    }
  }

  /** What an attempt leaves and records follows from the trees before it. */
  lemma ToldUnique(host: Host, r: RuleConfig, before: Snapshot, available: bool, stamp: Stamps, after: Snapshot,
                   record: ExecutionRecord, otherAfter: Snapshot, other: ExecutionRecord)
    requires host.Told(r, before, after, available, stamp, record)
    requires host.Told(r, before, otherAfter, available, stamp, other)
    ensures after == otherAfter && record == other
  {
    var s0 := Sides(before[r.source], before[r.target]);
    var pol := Planner.PolicyOf(RuleOf(r), r.mode.value, host.os);
    var sums := Sums(host.stores[r.source].sum, host.stores[r.target].sum);
    EndedUnique(pol, s0, Sides(after[r.source], after[r.target]), Sides(otherAfter[r.source], otherAfter[r.target]),
                sums, available, stamp);
    assert forall e :: e in host.stores ==> after[e] == otherAfter[e];
    if !record.failed {
      Service.TellsUnique(record.files, record.bytes, other.files, other.bytes, pol, s0, sums);
    }
  }

  lemma EndedUnique(pol: PlannerSpec.Policy, s0: Sides, s: Sides, t: Sides, sums: Sums, available: bool, stamp: Stamps)
    requires Ended(pol, s0, s, sums, available, stamp) && Ended(pol, s0, t, sums, available, stamp)
    ensures s == t
  {
    if !Executor.PlanFails(s0, pol.ignored) && available { Service.EndsUnique(pol, s0, s, t, sums, stamp); }
  }

  lemma {:induction false} AllToldUnique(host: Host, rules: seq<RuleConfig>, a: TickRun, b: TickRun, available: bool,
                                         clock: Clock, tick: nat, i: nat)
    requires AllTold(host, rules, a.records, a.states, available, clock, tick) && i <= |rules|
    requires AllTold(host, rules, b.records, b.states, available, clock, tick) && a.states[0] == b.states[0]
    ensures a.records[..i] == b.records[..i] && a.states[..i + 1] == b.states[..i + 1]
  {
    if i > 0 {
      AllToldUnique(host, rules, a, b, available, clock, tick, i - 1);
      var r, k := rules[i - 1], i - 1;
      assert a.states[k] == a.states[..i][k] == b.states[..i][k] == b.states[k];
      ToldUnique(host, r, a.states[k], available, clock(tick, r.name), a.states[i], a.records[k], b.states[i],
                 b.records[k]);
      assert a.records[..i] == a.records[..k] + [a.records[k]] && b.records[..i] == b.records[..k] + [b.records[k]];
      assert a.states[..i + 1] == a.states[..i] + [a.states[i]] && b.states[..i + 1] == b.states[..i] + [b.states[i]];
    }
  }

  lemma TickUnique(host: Host, rules: seq<RuleConfig>, before: Snapshot, tick: nat, a: TickRun, b: TickRun,
                   change: Change, locks: Locks, clock: Clock)
    requires TickTold(host, rules, before, tick, a, change, locks, clock)
    requires TickTold(host, rules, before, tick, b, change, locks, clock)
    ensures a == b
  {
    AllToldUnique(host, rules, a, b, locks(tick).Free(), clock, tick, |rules|);
    assert a.records == a.records[..|rules|] && b.records == b.records[..|rules|];
    assert a.states == a.states[..|rules| + 1] && b.states == b.states[..|rules| + 1];
  }

  /** The starting trees, what happens from outside and the clocks determine the whole history: every record of every
      tick and every tree in between. */
  lemma {:induction false} HistoryIsDetermined(host: Host, rules: seq<RuleConfig>, a: seq<TickRun>, b: seq<TickRun>,
                                               start: Snapshot, change: Change, locks: Locks, clock: Clock)
    requires TicksTold(host, rules, a, start, change, locks, clock)
    requires TicksTold(host, rules, b, start, change, locks, clock) && |a| == |b|
    ensures a == b
  {
    if a != [] {
      var k := |a| - 1;
      TicksBefore(host, rules, a, start, change, locks, clock);
      TicksBefore(host, rules, b, start, change, locks, clock);
      HistoryIsDetermined(host, rules, a[..k], b[..k], start, change, locks, clock);
      TickUnique(host, rules, LeftBy(a[..k], start), k, a[k], b[k], change, locks, clock);
      SameLast(a, b);
    }
  }

  lemma SameLast<T>(a: seq<T>, b: seq<T>)
    requires |a| == |b| > 0 && a[..|a| - 1] == b[..|b| - 1] && a[|a| - 1] == b[|b| - 1]
    ensures a == b
  {
    assert a == a[..|a| - 1] + [a[|a| - 1]] && b == b[..|b| - 1] + [b[|b| - 1]];
  }

  lemma TicksBefore(host: Host, rules: seq<RuleConfig>, runs: seq<TickRun>, start: Snapshot, change: Change,
                    locks: Locks, clock: Clock)
    requires TicksTold(host, rules, runs, start, change, locks, clock) && runs != []
    ensures TicksTold(host, rules, runs[..|runs| - 1], start, change, locks, clock)
    ensures var k := |runs| - 1; TickTold(host, rules, LeftBy(runs[..k], start), k, runs[k], change, locks, clock)
  {
    var less := runs[..|runs| - 1];
    forall k | 0 <= k < |less|
      ensures TickTold(host, rules, LeftBy(less[..k], start), k, less[k], change, locks, clock)
    {
      assert less[..k] == runs[..k] && less[k] == runs[k];
    }
  }

  /** The place of a rule's record of a tick in the history. */
  lemma {:induction false} OneRecordPerTick(runs: seq<TickRun>, m: nat, tick: nat, i: nat)
    requires (forall k :: 0 <= k < |runs| ==> |runs[k].records| == m) && tick < |runs| && i < m
    ensures |Records(runs)| == |runs| * m && tick * m + i < |runs| * m
    ensures Records(runs)[tick * m + i] == runs[tick].records[i]
  {
    var n := |runs| - 1;
    RecordsLength(runs[..n], m);
    assert (n + 1) * m == n * m + m;
    if tick < n {
      OneRecordPerTick(runs[..n], m, tick, i);
    }
  }

  lemma {:induction false} RecordsLength(runs: seq<TickRun>, m: nat)
    requires forall k :: 0 <= k < |runs| ==> |runs[k].records| == m
    ensures |Records(runs)| == |runs| * m
  {
    if runs != [] {
      var n := |runs| - 1;
      RecordsLength(runs[..n], m);
      assert (n + 1) * m == n * m + m;
    }
  }

  lemma ScheduledIsNamed(c: Config, parses: string -> bool, i: nat)
    requires Acceptable(c, parses) && i < |Scheduled(c.rules)|
    ensures var r := Scheduled(c.rules)[i];
            && r in c.rules && RuleNames(Scheduled(c.rules))[i] == r.name
            && r.name != "" && r.name in RuleNames(c.rules)
  {
    ScheduledMembers(c.rules);
    assert Scheduled(c.rules)[i] in Scheduled(c.rules);
    RuleIsNamed(c.rules, Scheduled(c.rules)[i]);
  }
}
