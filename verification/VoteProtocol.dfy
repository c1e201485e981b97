/** The vote messages (`VoteProtocol.h`). */
module VoteProtocol {
  const MAX_CANDIDATE := 1000
  const MAX_WIRE_SIZE := 500

  const LONGS := 0x1_0000_0000_0000_0000

  type u64 = x: int | 0 <= x < LONGS

  datatype VoteInfo = VoteInfo(count: u64, candidate: int, isInquiry: bool, isResponse: bool) {
    predicate Vote() {
      !isResponse && !isInquiry
    }
  }

  /** The struct that `Decode` fills in. */
  class VoteStruct {
    var count: u64
    var candidate: int
    var isInquiry: bool
    var isResponse: bool

    /** A struct cleared by `memset`. */
    constructor ()
      ensures Info() == VoteInfo(0, 0, false, false)
    {
      count, candidate, isInquiry, isResponse := 0, 0, false, false;
    }

    function Info(): VoteInfo
      reads this
    {
      VoteInfo(count, candidate, isInquiry, isResponse)
    }
  }
}
