/** The smaller and the larger of two numbers. */
module Bounds {
  function Max(a: int, b: int): int {
    if a < b then b else a
  }

  function Min(a: int, b: int): int {
    if a < b then a else b
  }
}

/** What poll may report of a descriptor, what a channel may ask for, and where a channel stands with
    its poller: unknown, watched by the kernel, or known and not watched. */
module PollEvents {
  datatype PollEvent = IN | PRI | OUT | HUP | RDHUP | ERR | NVAL

  datatype Index = New | Added | Deleted

  /** After an update. A channel the kernel does not have is added even if it asks for nothing, and
      the kernel then still reports hang-ups and errors. */
  function IndexAfter(index: Index, asksForNothing: bool): Index {
    if index.Added? && asksForNothing then Deleted else Added
  }
}

/** The states of a connection, which it goes through in one direction only. */
module ConnectionStates {
  datatype StateE = Connecting | Connected | Disconnecting | Disconnected

  function Rank(s: StateE): nat {
    match s
    case Connecting => 0
    case Connected => 1
    case Disconnecting => 2
    case Disconnected => 3
  }
}
