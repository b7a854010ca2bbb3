// What the handshake machines of TLS 1.0 to 1.2 share: messages, negotiated parameters, the
// transcript and the two ends of a connection. Cryptography is left abstract.

module TlsMessages {

  datatype Kind =
    | ClientHello | HelloVerifyRequest | ServerHello | Certificate | CertificateStatus
    | ServerKeyExchange | CertificateRequest | ServerHelloDone | ClientKeyExchange
    | CertificateVerify | NextProto | ChannelId | NewSessionTicket | Finished
    | ChangeCipherSpec | OtherKind

  // A message; ChangeCipherSpec travels like one but is never hashed.
  datatype Msg = Msg(kind: Kind, fromServer: bool, body: nat)

  // What the hellos settle. ske says that the server sends a ServerKeyExchange, skeRequired
  // that the cipher cannot do without one.
  datatype Flags = Flags(resumed: bool, certAuth: bool, ske: bool, skeRequired: bool, status: bool,
                         ticket: bool, npn: bool, channelId: bool)

  // The functions the handshake computes: the verify data of a Finished from the transcript
  // before it, the sender and the master secret; the master secret of a full handshake from
  // the transcript up to the ClientKeyExchange; that of the resumed session; and the contents
  // of every other message.
  datatype Crypto = Crypto(mac: (seq<Msg>, bool, nat) -> nat, prf: seq<Msg> -> nat, session: nat, body: (Kind, bool) -> nat)

  // One end's message buffer, pending flight and transcript.
  datatype Io = Io(inbox: seq<Msg>, out: seq<Msg>, transcript: seq<Msg>)

  datatype Wait =
    | Ok | Error | Flush | ReadMessage | ReadServerHello | ReadChangeCipherSpec | X509Lookup
    | ChannelIdLookup | PrivateKeyOperation | CertificateVerification | PendingSession
    | CertificateSelectionPending | EarlyReturn

  datatype Verdict = Valid | Invalid | Later

  // What is not decided by the machine at one step: a message that does not parse or check
  // or a local failure, a callback that is not ready, the verdict on a certificate, what the
  // hellos settle, and whether False Start is used.
  datatype Env = Env(fail: bool, retry: bool, verify: Verdict, nego: Flags, keepChannelId: bool, falseStart: bool)

  // add_message: to the flight and to the transcript.
  function Send(io: Io, m: Msg): Io { io.(out := io.out + [m], transcript := io.transcript + [m]) }

  // add_change_cipher_spec.
  function SendCcs(io: Io, fromServer: bool): Io { io.(out := io.out + [Msg(ChangeCipherSpec, fromServer, 0)]) }

  // ssl_hash_message and next_message.
  function Take(io: Io): Io
    requires io.inbox != []
  {
    io.(inbox := io.inbox[1..], transcript := io.transcript + [io.inbox[0]])
  }

  function Plain(x: Crypto, k: Kind, fromServer: bool): Msg { Msg(k, fromServer, x.body(k, fromServer)) }

  // A Certificate is empty when its sender has none.
  function CertificateOf(x: Crypto, has: bool, fromServer: bool): Msg {
    Msg(Certificate, fromServer, if has then x.body(Certificate, fromServer) + 1 else 0)
  }

  // ssl_send_finished.
  function SendFinished(x: Crypto, io: Io, fromServer: bool, master: nat): Io {
    Send(io, Msg(Finished, fromServer, x.mac(io.transcript, fromServer, master)))
  }

  // The kinds of messages, in order.
  function Kinds(ms: seq<Msg>): seq<Kind> { if ms == [] then [] else Kinds(ms[..|ms| - 1]) + [ms[|ms| - 1].kind] }

  // One message, or none.
  function If(b: bool, k: Kind): seq<Kind> { if b then [k] else [] }

  lemma {:induction false} KindsBoth(a: seq<Msg>, b: seq<Msg>)
    ensures Kinds(a + b) == Kinds(a) + Kinds(b)
  {
    if b == [] {
      assert a + b == a;
    } else {
      KindsBoth(a, b[..|b| - 1]);
      assert (a + b)[..|a + b| - 1] == a + b[..|b| - 1];
    }
  }

  lemma {:induction false} KindsOne(m: Msg)
    ensures Kinds([m]) == [m.kind]
  {
    assert [m][..0] == [];
  }
}
