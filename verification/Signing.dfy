/** The signature the agent computes is HMAC-SHA-256: the MAC that authentication leaves open is the
    standard's, and the agent's own routine computes it. */
module Signing {
  import opened Wrappers
  import opened Octets
  import Sha256
  import Auth

  function Words(b: Bytes): (s: seq<bv8>)
    ensures |s| == |b|
  {
    seq(|b|, i requires 0 <= i < |b| => (b[i] as nat) as bv8)
  }

  function FromWords(s: seq<bv8>): (b: Bytes)
    ensures |b| == |s|
  {
    seq(|s|, i requires 0 <= i < |s| => (s[i] as nat) as u8)
  }

  /** Nothing of a digest is lost on the way out: digests are equal when their octets are. */
  lemma WordsRoundTrip(s: seq<bv8>)
    ensures Words(FromWords(s)) == s
  {
    forall i | 0 <= i < |s| ensures Words(FromWords(s))[i] == s[i] {
      OneWord(s[i]);
    }
  }

  lemma OneWord(x: bv8)
    ensures x as nat < 256 && (x as nat) as bv8 == x
  {
  }

  // The MAC of RFC 2104 over SHA-256, on octets.
  function Standard(key: Bytes, m: Bytes): Bytes { FromWords(Sha256.Hmac(Words(key), Words(m))) }

  const MAC: Auth.Mac := Standard

  lemma StandardIsHash32()
    ensures Auth.Hash32(MAC)
  {
    hide Sha256.Hmac;
  }

  // The digest that the agent's signing line carries.
  method AgentDigest(key: Bytes, m: Bytes) returns (digest: Bytes)
    ensures digest == Auth.AgentMac(MAC, key, m)
  {
    hide Sha256.Hmac;
    var d := Sha256.PtHmacSha256(Words(key), Words(m));
    digest := FromWords(d);
    assert |m| > Auth.MAC_LIMIT ==> Words(m)[..2048] == Words(m[..2048]);
  }

  /** A datagram signed with the real HMAC within the agent's 2048-octet buffer, by an agent the broker
      knows, is accepted exactly when its stamp is timely, and then yields its payload, authenticated. */
  lemma SignedDatagramPeels(dir: Auth.Directory, id: string, ts: int, payload: string, now: int)
    requires Auth.IdValid(id) && id in dir.keys && dir.keys[id] != []
    requires Auth.In64(ts) && Auth.In64(now) && |Auth.Signed(id, ts, payload)| <= Auth.MAC_LIMIT
    ensures var v := Auth.PeelOf(dir, MAC, Auth.AgentLine(MAC, id, dir.keys[id], ts, payload) + payload, now);
            && (v.Accept? <==> Auth.Timely(now, ts))
            && (v.Accept? ==> v == Auth.Accept(payload, Some(id), Auth.Board(dir, id), true))
  {
    StandardIsHash32();
    hide *;
    Auth.ShortSignedPeels(dir, MAC, id, ts, payload, now);
  }
}
