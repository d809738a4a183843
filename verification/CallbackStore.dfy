/**
 Callback tokens: payloads that do not fit a button are stored under a short token that expires.

 The digest is any function to 64 ASCII characters: no collision resistance is assumed anywhere.
 */
module CallbackStore {
  import opened Common

  const MAX_BYTES := 64
  const PREFIX := "cb:"

  datatype Row = Row(payload: string, expires: Time)

  datatype Outcome = Returned(value: string) | Rejected

  type Tokens = map<string, Row>

  /** Length of a character in UTF-8. */
  function CharBytes(c: char): nat {
    if c < 128 as char then 1 else if c < 2048 as char then 2 else if c < 65536 as char then 3 else 4
  }

  function ByteLength(s: string): nat {
    if s == "" then 0 else CharBytes(s[0]) + ByteLength(s[1..])
  }

  ghost predicate Digesting(digest: string -> string) {
    forall p :: |digest(p)| == 64 && forall i :: 0 <= i < 64 ==> digest(p)[i] < 128 as char
  }

  /** Fits a button as it is, and cannot be mistaken for a token. */
  predicate Literal(payload: string) {
    1 <= ByteLength(payload) <= MAX_BYTES && !(PREFIX <= payload)
  }

  function Token(digest: string -> string, payload: string, chars: nat): string
    requires chars <= |digest(payload)|
  {
    PREFIX + digest(payload)[..chars]
  }

  /** The first prefix length, from `chars` up in steps of four, whose token is free or already the payload's. */
  function Allocated(tokens: Tokens, digest: string -> string, payload: string, chars: nat): Option<string>
    requires |digest(payload)| == 64
    decreases 61 - chars
  {
    if chars > 60 then None
    else
      var token := Token(digest, payload, chars);
      if token !in tokens || tokens[token].payload == payload then Some(token)
      else Allocated(tokens, digest, payload, chars + 4)
  }

  function Encoded(tokens: Tokens, digest: string -> string, ttl: Time, payload: string, now: Time): (Tokens, Outcome)
    requires |digest(payload)| == 64
  {
    if ByteLength(payload) < 1 then (tokens, Rejected)
    else if Literal(payload) then (tokens, Returned(payload))
    else
      match Allocated(tokens, digest, payload, 24)
      case Some(token) => (tokens[token := Row(payload, now + ttl)], Returned(token))
      case None => (tokens, Rejected)
  }

  function Decoded(tokens: Tokens, value: string, now: Time): (Tokens, Outcome) {
    if ByteLength(value) < 1 || ByteLength(value) > MAX_BYTES then (tokens, Rejected)
    else if !(PREFIX <= value) then (tokens, Returned(value))
    else if value !in tokens then (tokens, Rejected)
    else if tokens[value].expires <= now then (tokens - {value}, Rejected)
    else (tokens, Returned(tokens[value].payload))
  }

  function Pruned(tokens: Tokens, now: Time): Tokens {
    map t | t in tokens && tokens[t].expires > now :: tokens[t]
  }

  class Store {
    const ttl: Time
    const digest: string -> string
    var tokens: Tokens

    ghost predicate Valid() {
      Digesting(digest)
    }

    constructor (ttl: Time, digest: string -> string)
      ensures tokens == map[] && this.ttl == ttl && this.digest == digest
    {
      this.ttl, this.digest, tokens := ttl, digest, map[];
    }

    method Encode(payload: string, now: Time) returns (outcome: Outcome)
      requires Valid()
      modifies this`tokens
      ensures (tokens, outcome) == Encoded(old(tokens), digest, ttl, payload, now)
    {
      var length := ByteLength(payload);
      if length < 1 {
        return Rejected;
      }
      if length <= MAX_BYTES && !(PREFIX <= payload) {
        return Returned(payload);
      }
      var chars := 24;
      while chars < 61
        invariant 24 <= chars <= 64 && tokens == old(tokens)
        invariant Allocated(tokens, digest, payload, 24) == Allocated(tokens, digest, payload, chars)
        decreases 61 - chars
      {
        var token := Token(digest, payload, chars);
        if token !in tokens || tokens[token].payload == payload {
          tokens := tokens[token := Row(payload, now + ttl)];
          return Returned(token);
        }
        chars := chars + 4;
      }
      outcome := Rejected;
    }

    method Decode(value: string, now: Time) returns (outcome: Outcome)
      modifies this`tokens
      ensures (tokens, outcome) == Decoded(old(tokens), value, now)
    {
      var length := ByteLength(value);
      if length < 1 || length > MAX_BYTES {
        return Rejected;
      }
      if !(PREFIX <= value) {
        return Returned(value);
      }
      if value !in tokens {
        return Rejected;
      }
      if tokens[value].expires <= now {
        tokens := tokens - {value};
        return Rejected;
      }
      outcome := Returned(tokens[value].payload);
    }

    method Prune(now: Time)
      modifies this`tokens
      ensures tokens == Pruned(old(tokens), now)
    {
      tokens := map t | t in tokens && tokens[t].expires > now :: tokens[t];
    }
  }

  // ---------------------------------------------------------------- runs

  datatype Call = Encode(payload: string, now: Time) | Decode(value: string, now: Time) | Prune(now: Time)

  function Step(tokens: Tokens, digest: string -> string, ttl: Time, call: Call): (Tokens, Outcome)
    requires forall p :: |digest(p)| == 64
  {
    match call
    case Encode(payload, now) => Encoded(tokens, digest, ttl, payload, now)
    case Decode(value, now) => Decoded(tokens, value, now)
    case Prune(now) => (Pruned(tokens, now), Rejected)
  }

  function After(digest: string -> string, ttl: Time, calls: seq<Call>): Tokens
    requires forall p :: |digest(p)| == 64
  {
    if calls == [] then map[] else Step(After(digest, ttl, calls[..|calls| - 1]), digest, ttl, calls[|calls| - 1]).0
  }

  /** What the k-th call of a run returns. */
  function OutcomeAt(digest: string -> string, ttl: Time, calls: seq<Call>, k: nat): Outcome
    requires (forall p :: |digest(p)| == 64) && k < |calls|
  {
    Step(After(digest, ttl, calls[..k]), digest, ttl, calls[k]).1
  }

  /** Decoding the value gives the payload at every instant before `until`. */
  predicate Promised(tokens: Tokens, value: string, payload: string, until: Time) {
    || (value == payload && Literal(payload))
    || (PREFIX <= value && 1 <= ByteLength(value) <= MAX_BYTES && value in tokens
        && tokens[value].payload == payload && tokens[value].expires >= until)
  }

  lemma {:induction false} AsciiBytes(s: string)
    requires forall i :: 0 <= i < |s| ==> s[i] < 128 as char
    ensures ByteLength(s) == |s|
  {
    if s != "" { AsciiBytes(s[1..]); }
  }

  lemma {:induction false} AllocatedIs(tokens: Tokens, digest: string -> string, payload: string, chars: nat)
    requires |digest(payload)| == 64 && Allocated(tokens, digest, payload, chars).Some?
    ensures exists n :: chars <= n <= 60 && Allocated(tokens, digest, payload, chars).value == Token(digest, payload, n)
    ensures var token := Allocated(tokens, digest, payload, chars).value; token !in tokens || tokens[token].payload == payload
    decreases 61 - chars
  {
    var token := Token(digest, payload, chars);
    if !(token !in tokens || tokens[token].payload == payload) {
      AllocatedIs(tokens, digest, payload, chars + 4);
    }
  }

  /** What encode returns fits a button, and the store promises it until it expires. */
  lemma EncodePromises(tokens: Tokens, digest: string -> string, ttl: Time, payload: string, now: Time)
    requires Digesting(digest) && Encoded(tokens, digest, ttl, payload, now).1.Returned?
    ensures var (after, outcome) := Encoded(tokens, digest, ttl, payload, now);
            Promised(after, outcome.value, payload, now + ttl) && 1 <= ByteLength(outcome.value) <= MAX_BYTES
  {
    if !Literal(payload) {
      AllocatedIs(tokens, digest, payload, 24);
      var n :| 24 <= n <= 60 && Allocated(tokens, digest, payload, 24).value == Token(digest, payload, n);
      AsciiBytes(Token(digest, payload, n));
    }
  }

  /** A promise survives every call made before it runs out: no other payload takes the token, re-encoding only prolongs it. */
  lemma StepKeepsPromise(tokens: Tokens, digest: string -> string, ttl: Time, call: Call, value: string, payload: string, until: Time)
    requires Digesting(digest) && Promised(tokens, value, payload, until)
    requires until - ttl <= call.now < until
    ensures Promised(Step(tokens, digest, ttl, call).0, value, payload, until)
  {
    if call.Encode? && !Literal(call.payload) && Allocated(tokens, digest, call.payload, 24).Some? {
      AllocatedIs(tokens, digest, call.payload, 24);
    }
  }

  ghost predicate Monotone(calls: seq<Call>) {
    forall i, j :: 0 <= i < j < |calls| ==> calls[i].now <= calls[j].now
  }

  lemma {:induction false} PromiseHolds(digest: string -> string, ttl: Time, calls: seq<Call>, k: nat, n: nat, value: string)
    requires Digesting(digest) && Monotone(calls) && k < n <= |calls|
    requires calls[k].Encode? && OutcomeAt(digest, ttl, calls, k) == Returned(value)
    requires forall m :: k < m < n ==> calls[m].now < calls[k].now + ttl
    ensures Promised(After(digest, ttl, calls[..n]), value, calls[k].payload, calls[k].now + ttl)
    decreases n
  {
    assert calls[..n][..n - 1] == calls[..n - 1];
    if n == k + 1 {
      EncodePromises(After(digest, ttl, calls[..k]), digest, ttl, calls[k].payload, calls[k].now);
    } else {
      PromiseHolds(digest, ttl, calls, k, n - 1, value);
      StepKeepsPromise(After(digest, ttl, calls[..n - 1]), digest, ttl, calls[n - 1], value, calls[k].payload, calls[k].now + ttl);
    }
  }

  /**
   Token stability: under a clock that never goes back, in every interleaving of encode, decode and prune, a value
   returned for a payload decodes to that payload at every later time before the token's life is over.
   */
  lemma TokensAreStable(digest: string -> string, ttl: Time, calls: seq<Call>, k: nat, j: nat, value: string)
    requires Digesting(digest) && Monotone(calls) && k < j < |calls|
    requires calls[k].Encode? && OutcomeAt(digest, ttl, calls, k) == Returned(value)
    requires calls[j] == Decode(value, calls[j].now) && calls[j].now < calls[k].now + ttl
    ensures OutcomeAt(digest, ttl, calls, j) == Returned(calls[k].payload)
  {
    forall m | k < m < j ensures calls[m].now < calls[k].now + ttl {
      assert calls[m].now <= calls[j].now;
    }
    PromiseHolds(digest, ttl, calls, k, j, value);
  }

  /** A token whose row has run out decodes to nothing, and is gone afterwards. */
  lemma ExpiredTokensAreRejected(tokens: Tokens, value: string, now: Time)
    requires PREFIX <= value && (value in tokens ==> tokens[value].expires <= now)
    ensures Decoded(tokens, value, now).1 == Rejected && (value in tokens && ByteLength(value) <= MAX_BYTES ==> value !in Decoded(tokens, value, now).0)
  {
    assert ByteLength(value) >= 1 by { assert value[0] == 'c'; }
  }

  /** Pruning takes exactly the rows whose life is over. */
  lemma PruneMeans(tokens: Tokens, now: Time, value: string)
    ensures value in Pruned(tokens, now) <==> value in tokens && now < tokens[value].expires
    ensures value in Pruned(tokens, now) ==> Pruned(tokens, now)[value] == tokens[value]
  {
  }

  /** A token lives exactly as long as the store says: one that nobody encodes again is rejected from then on. */
  lemma TokensExpire(tokens: Tokens, digest: string -> string, ttl: Time, payload: string, now: Time, later: Time)
    requires Digesting(digest) && !Literal(payload) && Encoded(tokens, digest, ttl, payload, now).1.Returned?
    ensures var (after, outcome) := Encoded(tokens, digest, ttl, payload, now);
      Decoded(after, outcome.value, later).1 == if later < now + ttl then Returned(payload) else Rejected
  {
    EncodePromises(tokens, digest, ttl, payload, now);
    AllocatedIs(tokens, digest, payload, 24);
  }
}
