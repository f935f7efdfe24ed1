// Domain types shared by every module (crates/decentgpu-common/src/types.rs).
module Types {
  /** A UUID, ordered as its 128-bit value; `hirer_id < worker_user_id` compares these. */
  type Uuid = nat

  /** A libp2p peer identity. */
  type PeerId = nat

  const NIL_UUID: Uuid := 0

  const I64_MAX := 0x7fff_ffff_ffff_ffff

  /** A signed 64-bit integer, as BIGINT columns hold it. */
  type I64 = x: int | -0x8000_0000_0000_0000 <= x <= I64_MAX

  datatype Option<+T> = None | Some(value: T) {
    function UnwrapOr(default: T): T {
      if Some? then value else default
    }
  }

  datatype GpuBackend = CpuOnly | Cuda | Metal | Rocm

  datatype JobStatus = Pending | Assigned | Running | Completed | Failed | Cancelled
}
