/** Sizes that several modules share (param.h). */
module Params {
  const MAXOPBLOCKS := 10
  const LOGSIZE := MAXOPBLOCKS * 3
}
