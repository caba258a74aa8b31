/** Automatic thread and stack sizing with 64-bit words; cores and memory are parameters. */
module Threads {
  import opened Net

  const HARD_MAX_THREADS: nat := 65535
  const WORD: nat := 0x1_0000_0000_0000_0000
  const KIB: nat := 1024
  const MIB: nat := 1024 * 1024

  type U64 = x: nat | x < WORD

  function SaturatingMul(a: U64, b: U64): U64 {
    if a * b < WORD then a * b else WORD - 1
  }

  function Min(a: nat, b: nat): nat {
    if a < b then a else b
  }

  function Max(a: nat, b: nat): nat {
    if a < b then b else a
  }

  function StackSizeFor(threads: nat): nat {
    if threads > 2000 then 256 * KIB else 1024 * KIB
  }

  datatype Decision = Decision(
    cores: U64, totalMem: Option<U64>, availMem: Option<U64>, stackBytes: nat, chosen: nat)

  /** The count before memory is considered. */
  function Provisional(cores: U64, work: U64): nat {
    Max(Min(Min(SaturatingMul(cores, 100), work), HARD_MAX_THREADS), 1)
  }

  /** The memory budget in bytes; the product wraps around when it leaves the word. */
  function Budget(availMb: U64): nat {
    (SaturatingMul(availMb, MIB) * 7) % WORD / 10
  }

  /** What sizing promises: between one and the provisional count; with known memory, the largest
      count whose stacks, at the provisional stack size, fit the budget, but at least one. */
  ghost predicate Decides(cores: U64, memory: Option<(U64, U64)>, work: U64, chosen: nat) {
    var p := Provisional(cores, work);
    && 1 <= chosen <= p
    && (memory.None? ==> chosen == p)
    && (memory.Some? ==>
          && (chosen == 1 || chosen * StackSizeFor(p) <= Budget(memory.value.1))
          && (chosen < p ==> (chosen + 1) * StackSizeFor(p) > Budget(memory.value.1)))
  }

  method AutoThreads(cores: U64, memory: Option<(U64, U64)>, work: U64) returns (d: Decision)
    ensures Decides(cores, memory, work, d.chosen)
    ensures 1 <= d.chosen <= Min(HARD_MAX_THREADS, Max(1, work))
    ensures d.stackBytes == StackSizeFor(d.chosen) && d.cores == cores
    ensures d.stackBytes == if d.chosen > 2000 then 262_144 else 1_048_576
    ensures memory.None? ==> d.totalMem == d.availMem == None
    ensures memory.Some? ==> d.totalMem == Some(memory.value.0) && d.availMem == Some(memory.value.1)
  {
    var total, avail: Option<U64> := None, None;
    if memory.Some? {
      total, avail := Some(memory.value.0), Some(memory.value.1);
    }
    var base := SaturatingMul(cores, 100);
    var chosen := Max(Min(Min(base, work), HARD_MAX_THREADS), 1);
    if avail.Some? {
      var stackBytes := StackSizeFor(chosen);
      var usable := (SaturatingMul(avail.value, MIB) * 7) % WORD / 10;
      var cap := Max(usable / stackBytes, 1);
      chosen := Min(chosen, cap);
    }
    chosen := Max(chosen, 1);
    d := Decision(cores, total, avail, StackSizeFor(chosen), chosen);
  }

  /** The promise leaves no choice. */
  lemma DecisionIsUnique(cores: U64, memory: Option<(U64, U64)>, work: U64, a: nat, b: nat)
    requires Decides(cores, memory, work, a) && Decides(cores, memory, work, b)
    ensures a == b
  {
  }

  /** The choice in numbers: 100 threads per core, no more than the work items or 65535, no fewer than
      one; of these as many as have stacks, of 256 KiB each if that count is above 2000 and of 1 MiB
      otherwise, within 70% of the available memory, but one at least. */
  lemma ChoiceInNumbers(cores: U64, memory: Option<(U64, U64)>, work: U64, chosen: nat)
    requires Decides(cores, memory, work, chosen)
    ensures var wanted: nat := if cores * 100 < work then cores * 100 else work;
            var capped: nat := if wanted < 65_535 then wanted else 65_535;
            var p: nat := if capped < 1 then 1 else capped;
            var stack: nat := if p > 2000 then 262_144 else 1_048_576;
            && 1 <= chosen <= p
            && (memory.None? ==> chosen == p)
            && (memory.Some? && memory.value.1 * 7_340_032 < 0x1_0000_0000_0000_0000 ==>
                  && (chosen == 1 || chosen * stack * 10 <= memory.value.1 * 7_340_032)
                  && (chosen < p ==> (chosen + 1) * stack * 10 > memory.value.1 * 7_340_032))
  {
    ProvisionalInNumbers(cores, work);
    hide Provisional;
  }

  lemma ProvisionalInNumbers(cores: U64, work: U64)
    ensures var wanted: nat := if cores * 100 < work then cores * 100 else work;
            var capped: nat := if wanted < 65_535 then wanted else 65_535;
            Provisional(cores, work) == if capped < 1 then 1 else capped
  {
  }

  /** Eight cores, 512 MB and plenty of work make 358 threads. */
  lemma SmallMachine()
    ensures Decides(8, Some((512, 512)), 65535, 358) && StackSizeFor(358) == 1_048_576
  {
  }

  /** The budget never exceeds 70% of the memory, even where the product wraps. */
  lemma BudgetIsModest(availMb: U64)
    ensures Budget(availMb) * 10 <= availMb * MIB * 7
    ensures availMb * MIB * 7 < WORD ==> Budget(availMb) == availMb * MIB * 7 / 10
  {
  }

  /** A budget that the final stack size overruns: it does not hold one provisional stack, or the
      count before clamping is above 2000 and the budget does not hold 2001 of the small stacks. */
  predicate Overrun(provisional: nat, budget: nat) {
    budget < StackSizeFor(provisional) || (provisional > 2000 && budget < 2001 * (256 * KIB))
  }

  /** Measured with the final stack size, the chosen count overruns the budget exactly under a
      condition on the inputs. */
  lemma FinalStackRule(cores: U64, memory: Option<(U64, U64)>, work: U64, chosen: nat)
    requires Decides(cores, memory, work, chosen) && memory.Some?
    ensures var budget := Budget(memory.value.1);
            chosen * StackSizeFor(chosen) > budget <==> Overrun(Provisional(cores, work), budget)
  {
    hide Provisional, Budget;
  }

  /** The same seen from the choice: the budget is overrun exactly if it does not hold one
      provisional stack, or memory moves the count from above 2000 to 2000 or below; in the second
      case the stacks still stay within four budgets. */
  lemma OverrunIsByClamping(cores: U64, memory: Option<(U64, U64)>, work: U64, chosen: nat)
    requires Decides(cores, memory, work, chosen) && memory.Some?
    ensures var budget, p := Budget(memory.value.1), Provisional(cores, work);
            && (chosen * StackSizeFor(chosen) > budget <==>
                  budget < StackSizeFor(p) || (p > 2000 && chosen <= 2000))
            && (budget >= StackSizeFor(p) ==> chosen * StackSizeFor(chosen) <= 4 * budget)
  {
    hide Provisional, Budget;
  }

  /** The 70% rule itself, for every amount of memory: it fails exactly where 70% of the memory is
      such a budget. Where the product leaves the word, the rule holds, however little the wrapped
      budget is. */
  lemma SeventyPercentRule(cores: U64, memory: Option<(U64, U64)>, work: U64, chosen: nat)
    requires Decides(cores, memory, work, chosen) && memory.Some?
    ensures var share := memory.value.1 * MIB * 7 / 10;
            chosen * StackSizeFor(chosen) > share <==> Overrun(Provisional(cores, work), share)
  {
    hide Provisional, Budget;
    var avail, p := memory.value.1, Provisional(cores, work);
    ProvisionalIsSmall(cores, work);
    if avail * MIB * 7 < WORD {
      BudgetIsModest(avail);
      FinalStackRule(cores, memory, work, chosen);
    }
  }

  lemma ProvisionalIsSmall(cores: U64, work: U64)
    ensures Provisional(cores, work) <= HARD_MAX_THREADS
  {
  }

  /** The comment at the formula promises the 70% rule for the final stack size; here it fails: 64
      cores, plenty of work, 512 MB: 1433 threads at 1 MB each. */
  lemma FinalStackRuleFails()
    ensures Decides(64, Some((512, 512)), 65535, 1433)
    ensures 1433 * StackSizeFor(1433) > Budget(512)
  {
  }
}
