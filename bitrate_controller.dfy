/** bitratecontroller.go: a client's bitrate controller, its claims keyed
    by track ID, and the total send bitrate of the claimed tracks, summed
    in uint32 arithmetic. */
module BitrateControl {
  import opened Common
  import opened Clients
  import Sfu

  /** The client track a claim refers to. */
  type TrackId = nat

  /** bitrateClaim: the claimed track, the quality it is sent at, and
      whether it is simulcast. */
  datatype Claim = Claim(track: TrackId, quality: QualityLevel, simulcast: bool)

  /** Some key of a non-empty claim map; every use picks the same one. */
  ghost function Pick(m: map<string, Claim>): (k: string)
    requires m != map[]
    ensures k in m
  {
    var k :| k in m; k
  }

  /** The exact sum of the send bitrates of every claimed track, where
      bitrate gives what each track's SendBitrate returns. */
  ghost function Sum(m: map<string, Claim>, bitrate: TrackId -> uint32): int
    decreases |m|
  {
    if m == map[] then 0
    else
      var k := Pick(m);
      assert |m - {k}| == |m| - 1 by { assert m.Keys - {k} == (m - {k}).Keys; }
      bitrate(m[k].track) + Sum(m - {k}, bitrate)
  }

  /** Any claim can be summed first: the sum does not depend on the order
      the map is visited in. */
  lemma {:induction false} SumRemove(m: map<string, Claim>, k: string, bitrate: TrackId -> uint32)
    requires k in m
    ensures Sum(m, bitrate) == bitrate(m[k].track) + Sum(m - {k}, bitrate)
    decreases |m|
  {
    var j := Pick(m);
    if j != k {
      assert (m - {j}).Keys == m.Keys - {j};
      assert (m - {k}).Keys == m.Keys - {k};
      SumRemove(m - {j}, k, bitrate);
      SumRemove(m - {k}, j, bitrate);
      assert m - {j} - {k} == m - {k} - {j};
    }
  }

  /** The exact sum taken in the order a key sequence lists the claims. */
  function SumInOrder(keys: seq<string>, m: map<string, Claim>, bitrate: TrackId -> uint32): int
    requires forall i :: 0 <= i < |keys| ==> keys[i] in m
  {
    if keys == [] then 0
    else bitrate(m[keys[0]].track) + SumInOrder(keys[1..], m, bitrate)
  }

  /** Summing in any visiting order that lists every claim once gives Sum. */
  lemma {:induction false} SumAnyOrder(keys: seq<string>, m: map<string, Claim>, bitrate: TrackId -> uint32)
    requires forall i, j :: 0 <= i < j < |keys| ==> keys[i] != keys[j]
    requires forall k :: k in m <==> k in keys
    ensures SumInOrder(keys, m, bitrate) == Sum(m, bitrate)
    decreases |keys|
  {
    if keys != [] {
      var k := keys[0];
      var rest := m - {k};
      forall x | x in rest ensures x in keys[1..] {
        var i :| 0 <= i < |keys| && keys[i] == x;
        assert keys[1..][i - 1] == x;
      }
      SumAnyOrder(keys[1..], rest, bitrate);
      assert SumInOrder(keys[1..], m, bitrate) == SumInOrder(keys[1..], rest, bitrate) by {
        SumInOrderAgree(keys[1..], m, rest, bitrate);
      }
      SumRemove(m, k, bitrate);
    } else {
      assert m == map[];
    }
  }

  /** The in-order sum reads only the listed claims. */
  lemma {:induction false} SumInOrderAgree(keys: seq<string>, m: map<string, Claim>, m': map<string, Claim>,
                                           bitrate: TrackId -> uint32)
    requires forall i :: 0 <= i < |keys| ==> keys[i] in m && keys[i] in m' && m[keys[i]] == m'[keys[i]]
    ensures SumInOrder(keys, m, bitrate) == SumInOrder(keys, m', bitrate)
    decreases |keys|
  {
    if keys != [] {
      SumInOrderAgree(keys[1..], m, m', bitrate);
    }
  }

  /** uint32 addition wraps: reducing early or late gives the same result. */
  lemma WrapAdd(a: int, b: int)
    ensures (a % Uint32Modulus + b) % Uint32Modulus == (a + b) % Uint32Modulus
  {
    var q := a / Uint32Modulus;
    assert a == q * Uint32Modulus + a % Uint32Modulus;
    assert a + b == (a % Uint32Modulus + b) + q * Uint32Modulus;
    ModShift(a % Uint32Modulus + b, q);
  }

  /** A value already in uint32 range is its own remainder. */
  lemma WrapSmall(x: int)
    requires 0 <= x < Uint32Modulus
    ensures x % Uint32Modulus == x
  {
  }

  /** Adding a multiple of the modulus does not change a remainder. */
  lemma {:induction false} ModShift(x: int, q: int)
    ensures (x + q * Uint32Modulus) % Uint32Modulus == x % Uint32Modulus
    decreases if q < 0 then -q else q
  {
    if q > 0 {
      ModShift(x, q - 1);
      assert x + q * Uint32Modulus == (x + (q - 1) * Uint32Modulus) + Uint32Modulus;
    } else if q < 0 {
      ModShift(x, q + 1);
      assert x + q * Uint32Modulus == (x + (q + 1) * Uint32Modulus) - Uint32Modulus;
    }
  }

  class BitrateController {
    const client: Sfu.Client
    var claims: map<string, Claim>
    var enabledQualityLevels: seq<QualityLevel>

    /** newbitrateController: the given client and quality levels, and no
        claims. */
    constructor (client: Sfu.Client, qualityLevels: seq<QualityLevel>)
      ensures this.client == client
      ensures enabledQualityLevels == qualityLevels && claims == map[]
    {
      this.client := client;
      claims := map[];
      enabledQualityLevels := qualityLevels;
    }

    /** Claims: a fresh map filled by ranging over the stored claims, with
        exactly the stored key/claim pairs. */
    method Claims() returns (copy: map<string, Claim>)
      ensures copy == claims
    {
      copy := map[];
      var rest := claims.Keys;
      while rest != {}
        invariant rest <= claims.Keys
        invariant copy.Keys == claims.Keys - rest
        invariant forall k :: k in copy ==> copy[k] == claims[k]
        decreases rest
      {
        var k :| k in rest;
        copy := copy[k := claims[k]];
        rest := rest - {k};
      }
    }

    /** totalSentBitrates: the claimed tracks' send bitrates added up in
        uint32, visiting the claims in whatever order the map yields
        them; the total is the exact sum wrapped modulo 2^32, 0 without
        claims. */
    method TotalSentBitrates(bitrate: TrackId -> uint32) returns (total: uint32)
      ensures total == Sum(claims, bitrate) % Uint32Modulus
      ensures claims == map[] ==> total == 0
      ensures Sum(claims, bitrate) < Uint32Modulus ==> total == Sum(claims, bitrate)
    {
      var snapshot := Claims();
      total := 0;
      ghost var exact := 0;
      var rest := snapshot;
      while rest != map[]
        invariant forall k :: k in rest ==> k in snapshot && rest[k] == snapshot[k]
        invariant exact == Sum(snapshot, bitrate) - Sum(rest, bitrate)
        invariant total == exact % Uint32Modulus
        decreases |rest|
      {
        var k :| k in rest;
        var b := bitrate(rest[k].track);
        SumRemove(rest, k, bitrate);
        WrapAdd(exact, b);
        total := (total + b) % Uint32Modulus;
        exact := exact + b;
        assert (rest - {k}).Keys == rest.Keys - {k};
        rest := rest - {k};
      }
      SumNonNegative(snapshot, bitrate);
      assert exact == Sum(claims, bitrate);
      if exact < Uint32Modulus {
        WrapSmall(exact);
      }
    }
  }

  /** Bitrates are unsigned, so the exact sum is never negative. */
  lemma {:induction false} SumNonNegative(m: map<string, Claim>, bitrate: TrackId -> uint32)
    ensures Sum(m, bitrate) >= 0
    decreases |m|
  {
    if m != map[] {
      var k := Pick(m);
      assert (m - {k}).Keys == m.Keys - {k};
      SumNonNegative(m - {k}, bitrate);
    }
  }
}
