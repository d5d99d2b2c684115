/** The socket side of a wait: the event masks of src/socket_darwin.c. A mask is a
    set of its flags; the numeric values of the flags play no part. */
module Sockets {

  datatype PollFlag = PollIn | PollPri | PollOut | PollErr | PollHup | PollNval | PollRdBand | PollWrBand

  datatype SocketEvent = Close | Accept | AddressChange | Qos | Qob | Read | Write

  /** The poll flags that stand for one event type. */
  function MaskOf(kind: SocketEvent): set<PollFlag> {
    match kind
    case Close => {PollHup}
    case Accept => {PollIn}
    case AddressChange => {PollErr}
    case Qos => {PollPri}
    case Qob => {PollRdBand, PollWrBand}
    case Read => {PollIn}
    case Write => {PollOut}
  }

  ghost predicate IsMask(types: set<SocketEvent>, mask: set<PollFlag>) {
    forall f :: f in mask <==> exists k :: k in types && f in MaskOf(k)
  }

  ghost predicate IsTest(revents: set<PollFlag>, types: set<SocketEvent>) {
    forall k :: k in types <==> MaskOf(k) * revents != {}
  }

  /** The masks flag by flag, and the types they stand for. */
  lemma TableIsMask(types: set<SocketEvent>, mask: set<PollFlag>)
    requires PollIn in mask <==> Accept in types || Read in types
    requires PollOut in mask <==> Write in types
    requires PollPri in mask <==> Qos in types
    requires PollRdBand in mask <==> Qob in types
    requires PollWrBand in mask <==> Qob in types
    requires PollErr in mask <==> AddressChange in types
    requires PollHup in mask <==> Close in types
    requires PollNval !in mask
    ensures IsMask(types, mask)
  {
    forall f
      ensures f in mask <==> exists k :: k in types && f in MaskOf(k)
    {
      match f
      case PollHup => assert f in MaskOf(Close);
      case PollIn => assert f in MaskOf(Accept) && f in MaskOf(Read);
      case PollErr => assert f in MaskOf(AddressChange);
      case PollPri => assert f in MaskOf(Qos);
      case PollRdBand => assert f in MaskOf(Qob);
      case PollWrBand => assert f in MaskOf(Qob);
      case PollOut => assert f in MaskOf(Write);
      case PollNval =>
    }
  }

  class SocketImpl {
    var events: set<PollFlag>
    var revents: set<PollFlag>

    constructor ()
      ensures events == {} && revents == {}
    {
      events, revents := {}, {};
    }

    method SetEvent(reported: set<PollFlag>)
      modifies this
      ensures revents == reported && events == old(events)
    {
      revents := reported;
    }

    method Enable(types: set<SocketEvent>)
      modifies this
      ensures IsMask(types, events) && revents == old(revents)
      ensures PollIn in events <==> Accept in types || Read in types
      ensures PollOut in events <==> Write in types
      ensures PollPri in events <==> Qos in types
      ensures PollRdBand in events <==> Qob in types
      ensures PollWrBand in events <==> Qob in types
      ensures PollErr in events <==> AddressChange in types
      ensures PollHup in events <==> Close in types
      ensures PollNval !in events
    {
      var mask: set<PollFlag> := {};
      if Close in types { mask := mask + {PollHup}; }
      if Accept in types { mask := mask + {PollIn}; }
      if AddressChange in types { mask := mask + {PollErr}; }
      if Qos in types { mask := mask + {PollPri}; }
      if Qob in types { mask := mask + {PollRdBand, PollWrBand}; }
      if Read in types { mask := mask + {PollIn}; }
      if Write in types { mask := mask + {PollOut}; }
      events := mask;
      TableIsMask(types, events);
    }

    method Test() returns (types: set<SocketEvent>)
      ensures IsTest(revents, types)
      ensures Accept in types <==> PollIn in revents
      ensures Read in types <==> PollIn in revents
      ensures Write in types <==> PollOut in revents
      ensures Qos in types <==> PollPri in revents
      ensures Qob in types <==> PollRdBand in revents || PollWrBand in revents
      ensures AddressChange in types <==> PollErr in revents
      ensures Close in types <==> PollHup in revents
    {
      types := {};
      if PollHup in revents { types := types + {Close}; }
      if PollIn in revents { types := types + {Accept, Read}; }
      if PollErr in revents { types := types + {AddressChange}; }
      if PollPri in revents { types := types + {Qos}; }
      if PollRdBand in revents || PollWrBand in revents { types := types + {Qob}; }
      if PollOut in revents { types := types + {Write}; }
      assert PollHup in revents ==> PollHup in MaskOf(Close) * revents;
      assert PollIn in revents ==> PollIn in MaskOf(Accept) * revents && PollIn in MaskOf(Read) * revents;
      assert PollErr in revents ==> PollErr in MaskOf(AddressChange) * revents;
      assert PollPri in revents ==> PollPri in MaskOf(Qos) * revents;
      assert PollRdBand in revents ==> PollRdBand in MaskOf(Qob) * revents;
      assert PollWrBand in revents ==> PollWrBand in MaskOf(Qob) * revents;
      assert PollOut in revents ==> PollOut in MaskOf(Write) * revents;
    }
  }

  /** What poll may report for a descriptor: conditions that were asked for, and the
      three that are always reported. */
  function Reported(events: set<PollFlag>, condition: set<PollFlag>): set<PollFlag> {
    condition * (events + {PollErr, PollHup, PollNval})
  }

  /** Test is dual to enable: a socket's test meets the wanted types exactly when
      what poll reported meets their mask. */
  lemma TestDualToEnable(wanted: set<SocketEvent>, mask: set<PollFlag>,
                         revents: set<PollFlag>, types: set<SocketEvent>)
    requires IsMask(wanted, mask) && IsTest(revents, types)
    ensures types * wanted != {} <==> revents * mask != {}
  {
    if kind :| kind in types * wanted {
      var f :| f in MaskOf(kind) * revents;
      assert f in revents * mask;
    }
    if f :| f in revents * mask {
      var kind :| kind in wanted && f in MaskOf(kind);
      assert f in MaskOf(kind) * revents;
      assert kind in types * wanted;
    }
  }

  /** A polled socket tests only as a type that shares a flag with an enabled one,
      or as closed, or as changed of address. */
  lemma NothingUnasked(wanted: set<SocketEvent>, mask: set<PollFlag>,
                       condition: set<PollFlag>, types: set<SocketEvent>, kind: SocketEvent)
    requires IsMask(wanted, mask) && IsTest(Reported(mask, condition), types)
    requires kind in types
    ensures kind == Close || kind == AddressChange || exists w :: w in wanted && MaskOf(w) * MaskOf(kind) != {}
  {
    var f :| f in MaskOf(kind) * Reported(mask, condition);
    if f in mask {
      var w :| w in wanted && f in MaskOf(w);
      assert f in MaskOf(w) * MaskOf(kind);
    }
  }
}
