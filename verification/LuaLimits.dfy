/** Limits that the code generator and the bytecode checker share (llimits.h, lopcodes.h). */
module LuaLimits {
  const MAXSTACK: int := 250
  const NO_REG: int := 255
}
