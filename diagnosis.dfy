/**
 * What sendTx (src/BaseProgram.ts) reports once the confirmation promise has
 * settled: the signature on success, otherwise the message of the Error it
 * throws, chosen from the rejection reason and a dry-run simulation.
 */
module Diagnosis {
  import opened Wrappers
  import opened Confirmation

  /** The `value` of a simulateTransaction response: the execution error (null when none) and the program logs (may be null). */
  datatype SimulationResult = SimulationResult(err: Option<TxError>, logs: Option<seq<string>>)

  /** How sendTx ends: returning the signature, throwing an Error with a message, or never returning. */
  datatype SendResult = Sent(signature: string) | Thrown(message: string) | Hangs

  const ProgramLogPrefix := "Program log: "
  const TimeoutMessage := "Timed out awaiting confirmation on transaction"
  const FailurePrefix := "Transaction failed: "
  const GenericFailure := "Transaction failed"

  /** The text after the program-log prefix of the last log line that carries it, if any. */
  function LastProgramLog(logs: seq<string>): (r: Option<string>)
    ensures r.Some? ==> exists i :: (0 <= i < |logs| && logs[i] == ProgramLogPrefix + r.value
      && forall j :: i < j < |logs| ==> !StartsWith(logs[j], ProgramLogPrefix))
    ensures r.None? ==> forall j :: 0 <= j < |logs| ==> !StartsWith(logs[j], ProgramLogPrefix)
  {
    if logs == [] then None
    else
      var line := logs[|logs| - 1];
      if StartsWith(line, ProgramLogPrefix) then
        assert line == ProgramLogPrefix + line[|ProgramLogPrefix|..];
        Some(line[|ProgramLogPrefix|..])
      else
        var r := LastProgramLog(logs[..|logs| - 1]);
        assert forall j :: 0 <= j < |logs| - 1 ==> logs[..|logs| - 1][j] == logs[j];
        r
  }

  /**
   * The message of the Error sendTx throws once confirmation was rejected.
   * `stringify` stands for JSON.stringify.
   */
  function FailureMessage(reason: Reason, sim: Option<SimulationResult>, stringify: TxError -> string): string
  {
    if reason.TimedOut? then TimeoutMessage
    else if sim.Some? && sim.value.err.Some? then
      var found := if sim.value.logs.Some? then LastProgramLog(sim.value.logs.value) else None;
      if found.Some? then FailurePrefix + found.value else stringify(sim.value.err.value)
    else GenericFailure
  }

  /**
   * sendTx's catch block: a timeout gives a fixed message; otherwise the
   * simulation logs are scanned from last to first for the program-log
   * prefix, then the serialized simulation error, then a generic message.
   */
  method Diagnose(reason: Reason, sim: Option<SimulationResult>, stringify: TxError -> string) returns (message: string)
    ensures message == FailureMessage(reason, sim, stringify)
  {
    if reason.TimedOut? {
      return TimeoutMessage;
    }
    if sim.Some? && sim.value.err.Some? {
      if sim.value.logs.Some? {
        var logs := sim.value.logs.value;
        var i := |logs| - 1;
        while i >= 0
          invariant -1 <= i < |logs|
          invariant LastProgramLog(logs[..i + 1]) == LastProgramLog(logs)
        {
          var line := logs[i];
          ScanStep(logs, i);
          if StartsWith(line, ProgramLogPrefix) {
            return FailurePrefix + line[|ProgramLogPrefix|..];
          }
          i := i - 1;
        }
      }
      return stringify(sim.value.err.value);
    }
    return GenericFailure;
  }

  /** One step of the backward scan: line i either is the answer or can be dropped. */
  lemma ScanStep(logs: seq<string>, i: nat)
    requires i < |logs|
    ensures LastProgramLog(logs[..i + 1]) ==
      if StartsWith(logs[i], ProgramLogPrefix) then Some(logs[i][|ProgramLogPrefix|..]) else LastProgramLog(logs[..i])
  {
    assert logs[..i + 1][..i] == logs[..i];
  }

  /** The result of sendTx once the confirmation promise is in `outcome`. */
  function SendTxResult(txid: string, outcome: Outcome, sim: Option<SimulationResult>, stringify: TxError -> string): SendResult
  {
    match outcome
    case Pending => Hangs
    case Resolved(_) => Sent(txid)
    case Rejected(reason) => Thrown(FailureMessage(reason, sim, stringify))
  }

  /** The four ways the failure message is chosen, in the order sendTx tries them. */
  lemma FailureMessageCases(reason: Reason, sim: Option<SimulationResult>, stringify: TxError -> string)
    ensures reason.TimedOut? ==> FailureMessage(reason, sim, stringify) == TimeoutMessage
    ensures reason.Failed? && (sim.None? || sim.value.err.None?) ==> FailureMessage(reason, sim, stringify) == GenericFailure
    ensures reason.Failed? && sim.Some? && sim.value.err.Some?
      && (sim.value.logs.None? || forall j :: 0 <= j < |sim.value.logs.value| ==> !StartsWith(sim.value.logs.value[j], ProgramLogPrefix))
      ==> FailureMessage(reason, sim, stringify) == stringify(sim.value.err.value)
  {
    if reason.Failed? && sim.Some? && sim.value.err.Some? && sim.value.logs.Some? {
      var logs := sim.value.logs.value;
      if LastProgramLog(logs).Some? {
        var i :| 0 <= i < |logs| && logs[i] == ProgramLogPrefix + LastProgramLog(logs).value;
        assert logs[i][..|ProgramLogPrefix|] == ProgramLogPrefix;
      }
    }
  }

  /**
   * Whatever error the confirmation was rejected with, a dry run that reports
   * an execution error gives the text after the prefix of its LAST
   * program-log line.
   */
  lemma FailureMessageUsesLastLog(rejected: TxError, simErr: TxError, logs: seq<string>, i: nat, rest: string, stringify: TxError -> string)
    requires i < |logs| && logs[i] == ProgramLogPrefix + rest
    requires forall j :: i < j < |logs| ==> !StartsWith(logs[j], ProgramLogPrefix)
    ensures FailureMessage(Failed(rejected), Some(SimulationResult(Some(simErr), Some(logs))), stringify) == FailurePrefix + rest
  {
    LastLogUnique(logs, i, rest);
  }

  /** The last program-log line is determined by the logs. */
  lemma {:induction false} LastLogUnique(logs: seq<string>, i: nat, rest: string)
    requires i < |logs| && logs[i] == ProgramLogPrefix + rest
    requires forall j :: i < j < |logs| ==> !StartsWith(logs[j], ProgramLogPrefix)
    ensures LastProgramLog(logs) == Some(rest)
  {
    var n := |logs| - 1;
    assert (ProgramLogPrefix + rest)[..|ProgramLogPrefix|] == ProgramLogPrefix;
    if i < n {
      assert logs[..n][i] == logs[i];
      LastLogUnique(logs[..n], i, rest);
    } else {
      assert (ProgramLogPrefix + rest)[|ProgramLogPrefix|..] == rest;
    }
  }

  /** sendTx returns the signature exactly when the promise resolved, and hangs while it is pending. */
  lemma SendTxOutcome(txid: string, outcome: Outcome, sim: Option<SimulationResult>, stringify: TxError -> string)
    ensures SendTxResult(txid, outcome, sim, stringify) == Sent(txid) <==> outcome.Resolved?
    ensures SendTxResult(txid, outcome, sim, stringify).Hangs? <==> outcome.Pending?
    ensures outcome == Rejected(TimedOut) ==> SendTxResult(txid, outcome, sim, stringify) == Thrown(TimeoutMessage)
  {
  }

  /**
   * An example: with logs ["Program log: step1",
   * "Program log: failed: insufficient funds", "Program consumed..."], only
   * the prefix is stripped from the second line, so the message is
   * "Transaction failed: failed: insufficient funds", for any rejection
   * error and any simulation error.
   */
  lemma InsufficientFundsExample(rejected: TxError, simErr: TxError, stringify: TxError -> string)
    ensures var logs := ["Program log: step1", ProgramLogPrefix + "failed: insufficient funds", "Program consumed..."];
      FailureMessage(Failed(rejected), Some(SimulationResult(Some(simErr), Some(logs))), stringify)
      == FailurePrefix + "failed: insufficient funds"
  {
    var logs := ["Program log: step1", ProgramLogPrefix + "failed: insufficient funds", "Program consumed..."];
    assert !StartsWith(logs[2], ProgramLogPrefix) by {
      assert logs[2][8] != ProgramLogPrefix[8];
    }
    FailureMessageUsesLastLog(rejected, simErr, logs, 1, "failed: insufficient funds", stringify);
  }
}
