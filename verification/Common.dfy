/** Types that several parts of the kernel share. */
module Common {

  datatype Option<+T> = None | Some(value: T)

  type Byte = x: int | 0 <= x < 256
}

/** ProcState of kernel/proc.zig */
module ProcStates {
  datatype ProcState = Unused | Used | Sleeping | Runnable | Running | Zombie
}
