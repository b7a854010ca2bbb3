// One end's message buffer, pending flight and transcript as the handshake functions use them.

module TlsIo {
  import opened Basics
  import opened TlsMessages

  // What the transport does when it is asked: it has no progress to report, it has written the
  // whole flight, or it has the next record.
  datatype IoResult = Blocked | FlightWritten | RecordRead(record: seq<Msg>)

  class MessageIo {
    const x: Crypto
    var inbox: seq<Msg>
    var out: seq<Msg>
    var transcript: seq<Msg>

    ghost function Now(): Io
      reads this
    {
      Io(inbox, out, transcript)
    }

    constructor (crypto: Crypto)
      ensures x == crypto && Now() == Io([], [], [])
    {
      x, inbox, out, transcript := crypto, [], [], [];
    }

    // get_message.
    method GetMessage() returns (msg: Option<Msg>)
      ensures msg == if inbox == [] then None else Some(inbox[0])
    {
      msg := if inbox == [] then None else Some(inbox[0]);
    }

    // ssl_hash_message, which a message goes through before it is checked further.
    method HashMessage(msg: Msg)
      modifies this`transcript
      ensures transcript == old(transcript) + [msg]
    {
      transcript := transcript + [msg];
    }

    // next_message.
    method NextMessage()
      requires inbox != []
      modifies this`inbox
      ensures inbox == old(inbox)[1..]
    {
      inbox := inbox[1..];
    }

    // add_message, which hashes what it sends.
    method AddMessage(msg: Msg)
      modifies this`out, this`transcript
      ensures Now() == Send(old(Now()), msg)
    {
      out, transcript := out + [msg], transcript + [msg];
    }

    // add_change_cipher_spec.
    method AddChangeCipherSpec(fromServer: bool)
      modifies this`out
      ensures Now() == SendCcs(old(Now()), fromServer)
    {
      out := out + [Msg(ChangeCipherSpec, fromServer, 0)];
    }

    // What most functions that read a message do: check its type, hash it, check the rest,
    // and drop it from the buffer. expected is the type, bad what the checks find.
    method ReadMessage(expected: Kind, bad: bool) returns (ret: Wait, msg: Msg)
      modifies this`inbox, this`transcript
      ensures old(inbox) == [] ==> ret == Wait.ReadMessage && Now() == old(Now())
      ensures old(inbox) != [] && (old(inbox)[0].kind != expected || bad) ==> ret == Error
      ensures old(inbox) != [] && old(inbox)[0].kind == expected && !bad ==>
                ret == Ok && msg == old(inbox)[0] && Now() == Take(old(Now()))
    {
      var next := GetMessage();
      msg := Msg(expected, false, 0);
      if next == None {
        return Wait.ReadMessage, msg;
      }
      msg := next.value;
      if msg.kind != expected {
        return Error, msg;
      }
      HashMessage(msg);
      if bad {
        return Error, msg;
      }
      NextMessage();
      ret := Ok;
    }

    // ssl_get_finished: the verify data is computed before the message is hashed.
    method GetFinished(fromServer: bool, master: nat, bad: bool) returns (ret: Wait)
      modifies this`inbox, this`transcript
      ensures old(inbox) == [] ==> ret == Wait.ReadMessage && Now() == old(Now())
      ensures old(inbox) != [] ==>
                (ret == Ok <==> old(inbox)[0].kind == Finished && !bad && old(inbox)[0].body == x.mac(old(transcript), fromServer, master))
                && (ret == Ok || ret == Error)
      ensures ret == Ok ==> Now() == Take(old(Now()))
    {
      var msg := GetMessage();
      if msg == None {
        return Wait.ReadMessage;
      }
      if msg.value.kind != Finished {
        return Error;
      }
      var finished := x.mac(transcript, fromServer, master);
      HashMessage(msg.value);
      if bad || msg.value.body != finished {
        return Error;
      }
      NextMessage();
      ret := Ok;
    }

    // ssl_send_finished.
    method SendFinished(fromServer: bool, master: nat)
      modifies this`out, this`transcript
      ensures Now() == TlsMessages.SendFinished(x, old(Now()), fromServer, master)
    {
      AddMessage(Msg(Finished, fromServer, x.mac(transcript, fromServer, master)));
    }

    // The flight has been written.
    method FlightDone()
      modifies this`out
      ensures Now() == old(Now()).(out := [])
    {
      out := [];
    }

    // ssl_open_handshake and ssl_open_change_cipher_spec on the next record.
    method OpenRecord(wait: Wait, record: seq<Msg>) returns (ret: Wait, ccs: bool)
      requires record != []
      modifies this`inbox
      ensures ccs <==> wait == ReadChangeCipherSpec && record[0].kind == ChangeCipherSpec
      ensures ret == if wait == ReadChangeCipherSpec <==> record[0].kind == ChangeCipherSpec then Ok else Error
      ensures Now() == if ret == Ok && !ccs then old(Now()).(inbox := old(inbox) + record) else old(Now())
    {
      ccs := false;
      if wait == ReadChangeCipherSpec {
        ccs := record[0].kind == ChangeCipherSpec;
        return if ccs then Ok else Error, ccs;
      }
      if record[0].kind == ChangeCipherSpec {
        return Error, false;
      }
      inbox := inbox + record;
      ret := Ok;
    }
  }
}
