/** A descriptor, the events it is to be watched for, and a place for the poller's index. */
module Channels {
  class Channel {
    const fd: nat
    var events: int
    var revents: int
    var index: int

    constructor (fd: nat)
      ensures this.fd == fd && events == 0 && revents == 0 && index == -1
    {
      this.fd, events, revents, index := fd, 0, 0, -1;
    }
  }

  // What a poller looks at.
  datatype Info = Info(fd: nat, events: int, index: int)
}
