/** Shared by all modules. */
module Common {

  datatype Option<+T> = None | Some(value: T)

  /** The greatest number of guest instructions in a block, `dbt/guest/rv32_cpu.h`. */
  const TB_MAX_INSNS: nat := 64
}
