/** Cost accumulation with a per-execution and a daily limit. */
module CostTracker {
  import opened Options

  datatype Breach = ExecutionLimit | DailyLimit

  class CostTracker {
    const maxPerExecution: real
    const maxPerDay: real
    var total: real
    var dailyTotal: real

    constructor (maxPerExecution: real, maxPerDay: real)
      ensures this.maxPerExecution == maxPerExecution && this.maxPerDay == maxPerDay
      ensures total == 0.0 && dailyTotal == 0.0
    {
      this.maxPerExecution := maxPerExecution;
      this.maxPerDay := maxPerDay;
      total := 0.0;
      dailyTotal := 0.0;
    }

    method SetDailyTotal(daily: real)
      modifies this`dailyTotal
      ensures dailyTotal == daily
    {
      dailyTotal := daily;
    }

    /** Adds the cost, or reports the breached limit (the execution limit first) and changes nothing. */
    method Add(cost: real) returns (breach: Option<Breach>)
      modifies this
      ensures breach.None? <==> old(total) + cost <= maxPerExecution && old(dailyTotal) + cost <= maxPerDay
      ensures breach == Some(ExecutionLimit) <==> old(total) + cost > maxPerExecution
      ensures breach.None? ==> total == old(total) + cost && dailyTotal == old(dailyTotal) + cost
      ensures breach.Some? ==> total == old(total) && dailyTotal == old(dailyTotal)
    {
      var newTotal := total + cost;
      var newDaily := dailyTotal + cost;
      if newTotal > maxPerExecution {
        return Some(ExecutionLimit);
      }
      if newDaily > maxPerDay {
        return Some(DailyLimit);
      }
      total := newTotal;
      dailyTotal := newDaily;
      breach := None;
    }
  }
}
