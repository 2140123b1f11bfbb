/** The part of a TLS endpoint that messages go through, updated in place: what has arrived, what is to be sent, and the
    handshake transcript (handshake.cc, ssl_transcript.cc). */
module TlsConnection {
  import opened Wrappers
  import opened TlsTranscript

  class Connection {
    var inbox: seq<Msg>
    var outbox: seq<Msg>
    /** SSLTranscript: the buffered messages and those hashed. */
    var buffer: Option<seq<Msg>>
    var hash: Option<seq<Msg>>
    ghost var log: seq<Msg>

    ghost function View(): Conn
      reads this
    {
      Conn(inbox, outbox, buffer, hash, log)
    }

    constructor ()
      ensures View() == FRESH
    {
      inbox, outbox, buffer, hash, log := [], [], Some([]), None, [];
    }

    /** `SSLTranscript::Update`: a transcript over what was sent and consumed is one over that and this message. */
    method HashMessage(m: Msg)
      modifies this
      ensures View() == Update(old(View()), m)
      ensures old(Faithful(View())) ==> Over(View(), log + [m])
    {
      if buffer.Some? {
        buffer := Some(buffer.value + [m]);
      }
      if hash.Some? {
        hash := Some(hash.value + [m]);
      }
    }

    /** `SSLTranscript::InitHash`: from here on the hash is over everything sent and consumed so far. */
    method StartHash()
      modifies this
      ensures View() == InitHash(old(View()))
      ensures old(Faithful(View()) && buffer.Some?) ==> Faithful(View()) && hash == Some(log)
    {
      hash := buffer;
    }

    /** `SSLTranscript::FreeBuffer`: once there is a hash, it goes on alone. */
    method ReleaseBuffer()
      modifies this
      ensures View() == FreeBuffer(old(View()))
      ensures old(Faithful(View()) && hash.Some?) ==> Faithful(View())
    {
      buffer := None;
    }

    /** `SSLTranscript::Init`. */
    method StartOver()
      modifies this
      ensures View() == Reset(old(View()))
    {
      buffer, hash, log := Some([]), None, [];
    }

    /** `ssl_add_message_cbb`: the message is queued, and the transcript goes on being over what was sent and
        consumed. */
    method AddMessage(m: Msg)
      modifies this
      ensures View() == Send(old(View()), m)
      ensures Emitted(old(View()), View(), [m])
      ensures old(Faithful(View())) ==> Faithful(View())
    {
      HashMessage(m);
      outbox, log := outbox + [m], log + [m];
    }

    /** `get_message`: the message is looked at, not taken. */
    method GetMessage() returns (m: Option<Msg>)
      ensures m == if inbox == [] then None else Some(inbox[0])
    {
      m := if inbox == [] then None else Some(inbox[0]);
    }

    /** `next_message`. */
    method NextMessage()
      requires inbox != []
      modifies this
      ensures View() == Consume(old(View()))
    {
      inbox, log := inbox[1..], log + [inbox[0]];
    }

    /** A message read as the state functions do: hashed, then released. It is in the transcript once. */
    method TakeMessage()
      requires inbox != []
      modifies this
      ensures View() == Read(old(View()))
      ensures Consumed(old(View()), View(), old(inbox[0].kind))
      ensures old(Faithful(View())) ==> Faithful(View())
    {
      HashMessage(inbox[0]);
      NextMessage();
    }

    /** The messages given were sent by the other side and have arrived. */
    method Receive(arrived: seq<Msg>)
      modifies this
      ensures View() == old(View()).(inbox := old(inbox) + arrived)
    {
      inbox := inbox + arrived;
    }

    /** `ssl_get_finished`. The message is accepted if and only if its value is over everything sent and consumed before
        it; only then does it join the transcript. */
    method GetFinished(fromServer: bool) returns (wait: Wait)
      modifies this
      ensures old(Faithful(View()) && hash.Some?) ==>
                (wait == Ok <==>
                  old(inbox) != [] && old(inbox[0]).kind == Finished && old(inbox[0]).body == Mac(fromServer, old(log)))
      ensures if wait == Ok then Consumed(old(View()), View(), Finished) else View() == old(View())
      ensures old(Faithful(View())) ==> Faithful(View())
      ensures wait == ReadMessage <==> old(inbox) == []
      ensures if old(inbox) == [] then wait == ReadMessage && View() == old(View())
              else
                match CheckFinished(old(View()), fromServer)
                case None => wait == Error && View() == old(View())
                case Some(c) => wait == Ok && View() == c
    {
      var m := GetMessage();
      if m.None? {
        return ReadMessage;
      }
      if !m.value.kind.Finished? || hash.None? || m.value.body != Mac(fromServer, hash.value) {
        return Error;
      }
      TakeMessage();
      wait := Ok;
    }

    /** `ssl_send_finished`. The value is over everything sent and consumed before the message. */
    method AddFinished(server: bool)
      modifies this
      ensures View() == SendFinished(old(View()), server)
      ensures old(Faithful(View()) && hash.Some?) ==>
                Emitted(old(View()), View(), [Msg(Finished, server, Mac(server, old(log)))])
      ensures old(Faithful(View())) ==> Faithful(View())
    {
      AddMessage(Msg(Finished, server, if hash.Some? then Mac(server, hash.value) else Opaque(0)));
    }
  }
}
