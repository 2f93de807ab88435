/** The thread-local words through which a trampoline, its routine and the library talk to each other. */
module Context {
  import opened Bytes

  type Pointer = n: int | 0 <= n < SIZE_LIMIT

  /** The bits of an `int`. */
  type Flag = n: int | 0 <= n < 0x1_0000_0000

  /** `ask_ctx` and `mmk_ctx_`. */
  datatype Tls = Tls(asked: Flag, ctx: Pointer)

  const NULL: Pointer := 0

  /** What entering through a trampoline comes to. */
  datatype Entry = Routine | Answer(ctx: Pointer)

  /** `mmk_set_ctx(stub)`, then `mmk_ctx_asked()`, then either the routine or `mmk_ctx()`. */
  function Enter(tls: Tls, stub: Pointer): (Tls, Entry) {
    (Tls(0, stub), if tls.asked == 0 then Routine else Answer(stub))
  }
}
