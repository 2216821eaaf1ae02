/** Gas estimation: the execution gas a node's simulation reports for each
    clause, folded into one total and combined with the intrinsic cost. */
module Gas {

  /** The part of a `VMOutput` that estimation reads. */
  datatype VMOutput = VMOutput(gasUsed: nat)

  /** Added on top of the simulated execution gas, and only when that is not
      zero, to absorb the imprecision of simulating stateful execution. */
  const ExecGasMargin: nat := 15000

  /** The `reduce` over the simulation outputs: a left fold adding each
      output's `gasUsed` to the running sum `acc`. */
  function SumGasUsed(acc: nat, outputs: seq<VMOutput>): (r: nat)
    ensures r >= acc
    decreases outputs
  {
    if outputs == [] then acc
    else SumGasUsed(acc + outputs[0].gasUsed, outputs[1..])
  }


  /** Reference definition of the total gas used: the plain sum. */
  function TotalGasUsed(outputs: seq<VMOutput>): nat {
    if outputs == [] then 0 else outputs[0].gasUsed + TotalGasUsed(outputs[1..])
  }

  /** The fold adds exactly the total to its start value. */
  lemma {:induction false} SumGasUsedIsTotal(acc: nat, outputs: seq<VMOutput>)
    ensures SumGasUsed(acc, outputs) == acc + TotalGasUsed(outputs)
    decreases outputs
  {
    if outputs != [] {
      SumGasUsedIsTotal(acc + outputs[0].gasUsed, outputs[1..]);
    }
  }

  /** The total is zero exactly when no clause used any gas. */
  lemma {:induction false} TotalGasUsedZero(outputs: seq<VMOutput>)
    ensures TotalGasUsed(outputs) == 0 <==> forall i :: 0 <= i < |outputs| ==> outputs[i].gasUsed == 0
  {
    if outputs != [] {
      TotalGasUsedZero(outputs[1..]);
      assert forall i :: 1 <= i < |outputs| ==> outputs[i] == outputs[1..][i - 1];
    }
  }

  /** The execution gas: the fold started at 0. It is the total gas used,
      and zero exactly when no clause used gas. */
  function ExecGas(outputs: seq<VMOutput>): (r: nat)
    ensures r == TotalGasUsed(outputs)
    ensures r == 0 <==> forall i :: 0 <= i < |outputs| ==> outputs[i].gasUsed == 0
  {
    SumGasUsedIsTotal(0, outputs);
    TotalGasUsedZero(outputs);
    SumGasUsed(0, outputs)
  }

  /** The gas limit: the intrinsic gas, plus the execution gas and the margin
      when the execution gas is not zero. It never falls below either input
      and exceeds the intrinsic gas exactly when execution used gas. */
  function GasLimit(intrinsicGas: nat, execGas: nat): (r: nat)
    ensures r >= intrinsicGas && r >= execGas
    ensures r == intrinsicGas <==> execGas == 0
  {
    intrinsicGas + (if execGas != 0 then execGas + ExecGasMargin else 0)
  }

  /** The estimate for simulated `outputs`: exactly the intrinsic gas when no
      clause used gas, and otherwise the intrinsic gas plus the total gas used
      plus the margin; never below the intrinsic gas nor below the execution
      gas. */
  lemma EstimateCases(intrinsicGas: nat, outputs: seq<VMOutput>)
    ensures (forall i :: 0 <= i < |outputs| ==> outputs[i].gasUsed == 0) ==>
              GasLimit(intrinsicGas, ExecGas(outputs)) == intrinsicGas
    ensures (exists i :: 0 <= i < |outputs| && outputs[i].gasUsed > 0) ==>
              GasLimit(intrinsicGas, ExecGas(outputs)) == intrinsicGas + TotalGasUsed(outputs) + ExecGasMargin
    ensures GasLimit(intrinsicGas, ExecGas(outputs)) >= intrinsicGas
    ensures GasLimit(intrinsicGas, ExecGas(outputs)) >= TotalGasUsed(outputs)
  {
  }
}
