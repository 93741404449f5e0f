/** The software download of an ONU as an object, with the image in a byte slice on the heap.

    The methods are the parts of the OMCI handler that work on the image, proved against OmciImages:
    a ghost parameter is the state of the ONU the object is a part of. */
module OmciHandler {
  import opened MachineIntegers
  import opened Options
  import opened StateMachines
  import opened ByteSlices
  import opened OmciImages
  import opened ImageVersions
  import PonLifecycle

  // The power cycle of OmciImages is what a reboot does to the state of the ONU on its PON.
  lemma PowerCycleIsReboot(rt: Runtime, s: Omci, p: PonLifecycle.Pon, k: nat)
    requires k < |p.onus| && p.onus[k].state == s.state && s.alive
    ensures Step(rt, s, PowerCycle) == s.(state := PonLifecycle.Reboot(p, k).onus[k].state)
  {
    if OnuAccepts(s.state, Disable) {
      PonLifecycle.SendLocal(p, k, Disable);
      var p1 := PonLifecycle.Send(p, k, Disable);
      PonLifecycle.SendAllLocal(p1, k, [Initialize, Discover, Enable]);
      PonLifecycle.RestartedState();
    }
  }

  // The part of the state that belongs to the download.
  datatype Download = Download(expected: uint32, received: uint32, image: Slice, inDownload: Bytes, standby: Bytes, alive: bool)

  function DownloadOf(s: Omci): Download {
    Download(s.expected, s.received, s.image, s.inDownload, s.standby, s.alive)
  }

  // What the two kinds of section do to it.
  lemma AskedDownload(rt: Runtime, s: Omci, data: Bytes, responded: bool)
    ensures DownloadOf(Process(rt, s, SectionWithResponse(true, data, responded))) ==
            DownloadOf(s).(image := Appended(s.image, rt.grow, data),
                           received := if responded then Wrap32(s.received as int + 1) else s.received)
  {
  }

  lemma UnaskedDownload(rt: Runtime, s: Omci, data: Bytes)
    ensures DownloadOf(HandleSection(rt, s, Section(true, data))) ==
            if s.received == 0 && |data| < VERSION_LENGTH then DownloadOf(s).(alive := false)
            else DownloadOf(s).(image := Appended(s.image, rt.grow, data),
                                received := Wrap32(s.received as int + 1),
                                inDownload := if s.received == 0 then data[..VERSION_LENGTH] else s.inDownload)
  {
  }

  class ImageDownload {
    var expected: uint32
    var received: uint32
    var image: ByteSlice
    var inDownload: Bytes
    var standby: Bytes
    var alive: bool

    // The image only grows by appending, so the bytes behind it are zero.
    ghost predicate Valid()
      reads this, image, image.bytes
    {
      image.Valid() && ZeroSpare(image.View())
    }

    ghost function View(): Download
      reads this, image, image.bytes
      requires Valid()
    {
      Download(expected, received, image.View(), inDownload, standby, alive)
    }

    constructor ()
      ensures Valid() && View() == DownloadOf(Boot(0)) && fresh(image) && fresh(image.bytes)
    {
      expected, received, inDownload, standby, alive := 0, 0, [], STANDBY_AT_BOOT, true;
      image := new ByteSlice();
    }

    // Whether a response can be made or not, the download starts over with a new slice.
    method Start(rt: Runtime, sections: uint32, ghost s: Omci, ghost responded: bool)
      requires Valid() && View() == DownloadOf(s)
      modifies this
      ensures Valid() && fresh(image) && fresh(image.bytes)
      ensures View() == DownloadOf(Process(rt, s, Request.StartDownload(sections, responded)))
    {
      received, expected := 0, sections;
      image := new ByteSlice();
    }

    // Appends to the image, which leaves everything else alone.
    method Store(rt: Runtime, data: Bytes)
      requires Valid()
      modifies image, image.bytes
      ensures Valid() && (image.bytes == old(image.bytes) || fresh(image.bytes))
      ensures View() == old(View()).(image := Appended(old(image.View()), rt.grow, data))
    {
      AppendKeepsZeros(image.View(), rt.grow, data);
      image.Append(rt.grow, data);
    }

    method ReceiveSection(rt: Runtime, data: Bytes, ghost s: Omci)
      requires Valid() && View() == DownloadOf(s)
      modifies this, image, image.bytes
      ensures Valid() && image == old(image) && (image.bytes == old(image.bytes) || fresh(image.bytes))
      ensures View() == DownloadOf(HandleSection(rt, s, Section(true, data)))
    {
      UnaskedDownload(rt, s, data);
      if received == 0 {
        if |data| < VERSION_LENGTH {
          alive := false;
          return;
        }
        inDownload := data[..VERSION_LENGTH];
      }
      Store(rt, data);
      received := Wrap32(received as int + 1);
    }

    // The section is stored before its response is made, and counted only after.
    method ReceiveAsked(rt: Runtime, data: Bytes, responded: bool, ghost s: Omci)
      requires Valid() && View() == DownloadOf(s)
      modifies this, image, image.bytes
      ensures Valid() && image == old(image) && (image.bytes == old(image.bytes) || fresh(image.bytes))
      ensures View() == DownloadOf(Process(rt, s, SectionWithResponse(true, data, responded)))
    {
      AskedDownload(rt, s, data, responded);
      Store(rt, data);
      if responded {
        received := Wrap32(received as int + 1);
      }
    }

    // handleEndSoftwareDownloadRequest
    method HandleEndDownload(rt: Runtime, q: Request, ghost s: Omci) returns (success: bool)
      requires Valid() && View() == DownloadOf(s) && q.EndDownload? && alive
      modifies this`received, this`standby, this`alive
      ensures Valid()
      ensures var was := old(View());
        var abort := q.parsed && was.received > 0 && q.size == 0 && q.crc == ABORT_CRC;
        var all := q.parsed && !abort && was.expected == was.received;
        && (!alive <==> all && q.size as nat > Capacity(was.image))
        && (success <==>
              || abort
              || (all && alive && ByteReverse(q.crc) == rt.checksum(Padded(was.image.data, q.size as nat))))
        && received == (if abort then 0 else was.received)
        && standby == (if success && !abort then was.inDownload else was.standby)
      ensures View() == DownloadOf(HandleEnd(rt, s, q)) && success == (EndOutcome(rt, s, q) in {Aborted, Verified})
    {
      if !q.parsed {
        return false;
      }
      if received > 0 && q.size == 0 && q.crc == ABORT_CRC {
        received := 0;
        return true;
      }
      if expected != received {
        return false;
      }
      var covered := image.Take(q.size as nat);
      if covered.None? {
        alive := false;
        return false;
      }
      var computed := rt.checksum(covered.value);
      var word := [ByteAt(computed, 0), ByteAt(computed, 1), ByteAt(computed, 2), ByteAt(computed, 3)];
      ByteReverseTwice(computed);
      ByteReverseTwice(q.crc);
      if q.crc != Word(word[3], word[2], word[1], word[0]) {
        return false;
      }
      standby := inDownload;
      return true;
    }
  }
}
