/** What a JWKS document publishes: the numbers its entries spell (section 6.3.1 of RFC 7518). */
module KeySetDocuments {
  import opened Options
  import opened KeySetModel
  import opened KeySetService

  /** A number in base 256, most significant octet first, with no leading zero. */
  function Spell(x: nat): Octets {
    if x == 0 then [] else Spell(x / 256) + [(x % 256) as Octet]
  }

  function Zeros(k: nat): Octets {
    seq(k, _ => 0)
  }

  /** `octets` spell the number, perhaps with zeros in front. */
  ghost predicate Spells(octets: Octets, x: nat) {
    exists k: nat :: octets == Zeros(k) + Spell(x)
  }

  lemma {:induction false} SpelledIsRead(x: nat)
    ensures BigEndian(Spell(x)) == x
  {
    if x > 0 {
      SpelledIsRead(x / 256);
      var octets := Spell(x);
      assert octets[..|octets| - 1] == Spell(x / 256);
    }
  }

  lemma {:induction false} ZerosInFront(k: nat, octets: Octets)
    ensures BigEndian(Zeros(k) + octets) == BigEndian(octets)
    decreases k + |octets|
  {
    var all := Zeros(k) + octets;
    if octets != [] {
      assert all[..|all| - 1] == Zeros(k) + octets[..|octets| - 1];
      ZerosInFront(k, octets[..|octets| - 1]);
    } else if k > 0 {
      assert all[..|all| - 1] == Zeros(k - 1) + octets;
      ZerosInFront(k - 1, octets);
    }
  }

  /** Every string of octets spells the number it is read as, so reading and spelling undo each other. */
  lemma {:induction false} ReadSpells(octets: Octets)
    ensures Spells(octets, BigEndian(octets))
  {
    if octets == [] {
      assert octets == Zeros(0) + Spell(0);
    } else {
      var n := |octets| - 1;
      var x, last := BigEndian(octets[..n]), octets[n];
      ReadSpells(octets[..n]);
      var k: nat :| octets[..n] == Zeros(k) + Spell(x);
      assert octets == octets[..n] + [last];
      OneOctetMore(k, x, last);
    }
  }

  lemma OneOctetMore(k: nat, x: nat, last: Octet)
    ensures Spells(Zeros(k) + Spell(x) + [last], x * 256 + last as nat)
  {
    var y := x * 256 + last as nat;
    if y == 0 {
      assert Zeros(k) + Spell(x) + [last] == Zeros(k + 1) + Spell(0);
    } else {
      assert y / 256 == x && y % 256 == last as int;
      assert Spell(y) == Spell(x) + [last];
      assert Zeros(k) + Spell(x) + [last] == Zeros(k) + Spell(y);
    }
  }

  lemma SpelledOnce(octets: Octets, x: nat)
    ensures Spells(octets, x) <==> BigEndian(octets) == x
  {
    if Spells(octets, x) {
      var k: nat :| octets == Zeros(k) + Spell(x);
      ZerosInFront(k, Spell(x));
      SpelledIsRead(x);
    }
    ReadSpells(octets);
  }

  /** An RSA signing entry that spells modulus m and an exponent x of one to eight octets. */
  ghost predicate Publishes(j: Jwk, m: nat, x: nat) {
    && j.kty == "RSA" && (j.use == "" || j.use == "sig")
    && j.n.Some? && Spells(j.n.value, m)
    && j.e.Some? && Spells(j.e.value, x) && 1 <= |j.e.value| <= 8
  }

  ghost predicate PublishesSome(j: Jwk) {
    exists m: nat, x: nat :: Publishes(j, m, x)
  }

  lemma PublishedNumbers(j: Jwk)
    requires PublishesSome(j)
    ensures j.n.Some? && j.e.Some? && Publishes(j, BigEndian(j.n.value), BigEndian(j.e.value))
    ensures forall m: nat, x: nat :: Publishes(j, m, x) ==> m == BigEndian(j.n.value) && x == BigEndian(j.e.value)
  {
    forall m: nat, x: nat | Publishes(j, m, x)
      ensures m == BigEndian(j.n.value) && x == BigEndian(j.e.value)
    {
      SpelledOnce(j.n.value, m);
      SpelledOnce(j.e.value, x);
    }
  }

  /** How a number of eight octets reads as a signed one. */
  function Signed(x: nat): int {
    if x < 0x8000_0000_0000_0000 then x else x - 0x1_0000_0000_0000_0000
  }

  function Pow256(k: nat): nat {
    if k == 0 then 1 else 256 * Pow256(k - 1)
  }

  lemma {:induction false} OctetsBound(octets: Octets)
    ensures BigEndian(octets) < Pow256(|octets|)
  {
    if octets != [] { OctetsBound(octets[..|octets| - 1]); }
  }

  lemma EightOctets(octets: Octets)
    requires |octets| <= 8
    ensures BigEndian(octets) < 0x1_0000_0000_0000_0000
  {
    OctetsBound(octets);
    assert Pow256(2) == 65536 && Pow256(4) == 65536 * 65536 && Pow256(6) == 65536 * 65536 * 65536;
    assert Pow256(8) == 0x1_0000_0000_0000_0000;
  }

  /**
   An entry is used exactly when it is an RSA signing key whose two numbers decode and whose exponent
   has one to eight octets, and it is then read as the numbers it spells; an exponent from 2^63 on
   comes out negative.
   */
  lemma EntryIsReadAsSpelled(j: Jwk)
    ensures Usable(j) <==> PublishesSome(j)
    ensures forall m: nat, x: nat :: Publishes(j, m, x) ==> RsaPublicKey(j) == Some(Key(m, Signed(x)))
  {
    if Usable(j) {
      SpelledOnce(j.n.value, BigEndian(j.n.value));
      SpelledOnce(j.e.value, BigEndian(j.e.value));
      assert Publishes(j, BigEndian(j.n.value), BigEndian(j.e.value));
    }
    if PublishesSome(j) {
      PublishedNumbers(j);
      EightOctets(j.e.value);
    }
  }

  lemma LastEntry(document: seq<Jwk>, j: Jwk)
    ensures KeysIn(document + [j]) ==
            if Usable(j) then KeysIn(document)[j.kid := RsaPublicKey(j).value] else KeysIn(document)
  {
    assert (document + [j])[..|document|] == document;
  }

  /** One entry more publishes the key it spells under its kid, or nothing at all. */
  lemma EntryPublishes(document: seq<Jwk>, j: Jwk, m: nat, x: nat)
    requires Publishes(j, m, x)
    ensures KeysIn(document + [j]) == KeysIn(document)[j.kid := Key(m, Signed(x))]
  {
    assert PublishesSome(j);
    EntryIsReadAsSpelled(j);
    LastEntry(document, j);
  }

  lemma OtherEntriesPublishNothing(document: seq<Jwk>, j: Jwk)
    requires j.kty != "RSA" || j.use !in ["", "sig"] || j.n.None? || j.e.None? || |j.e.value| !in [1, 2, 3, 4, 5, 6, 7, 8]
    ensures KeysIn(document + [j]) == KeysIn(document)
  {
    LastEntry(document, j);
  }

  /** What a caller is told, in the cases a verifier of signatures meets. */
  lemma KeyAnswers(ttl: int, now: int, wait: nat, c: Cache, kid: Kid, response: Option<Keys>)
    requires c.keys.Some? <==> c.fetchedAt.Some?
    ensures var (after, key) := Resolve(ttl, now, wait, c, kid, response);
      var cached := c.keys.Some? && now <= c.fetchedAt.value + ttl && kid in c.keys.value;
      var throttled := c.fetchedAt.Some? && now < c.fetchedAt.value + 60_000_000_000;
      var fetched := !cached && !throttled && response.Some? && response.value != map[];
      && (cached ==> after == c && key == Some(c.keys.value[kid]))
      && (fetched ==> after == Cache(response, Some(now + wait)))
      && (fetched ==> key == if kid in response.value && 0 <= ttl then Some(response.value[kid]) else None)
      && (!cached && !fetched ==> after == c && key == None)
  {}
}
