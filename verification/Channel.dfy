/** A channel: one descriptor, the events it wants, and the poller's note in it. */
module Channels {

  // POLLIN and POLLPRI are only ever set and cleared together.
  datatype Mask = Mask(read: bool, write: bool)

  const NONE_EVENT := Mask(false, false)

  class Channel {
    const fd: nat
    var events: Mask
    var index: int

    constructor (fd: nat)
      ensures this.fd == fd && events == NONE_EVENT && index == -1
    {
      this.fd := fd;
      events := NONE_EVENT;
      index := -1;
    }
  }
}
