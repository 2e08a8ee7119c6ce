/** The laws that the model states of foreign code can be met together. */
module Laws {
  import opened Wrappers
  import opened Bytes
  import opened Keys
  import opened MerkleTree
  import opened Fields
  import opened Routes

  const SOME_KEY: PubKey := PubKey(false, ToBE(1, 32))

  /** Cryptography that hides nothing: data is sealed behind sixteen zero bytes. */
  const TRANSPARENT: Crypto := Crypto(
    x => true,
    k => SOME_KEY,
    (n, e) => SOME_KEY,
    (n, e) => SOME_KEY,
    (n, e, d) => ToBE(0, 16) + d,
    (n, e, d) => if |d| >= 16 then Some(d[16..]) else None,
    ls => true
  )

  lemma CryptoLawsAreMet()
    ensures Sound(TRANSPARENT)
  {
    forall n, e, d ensures TRANSPARENT.open(n, e, TRANSPARENT.seal(n, e, d)) == Some(d) {
      assert (ToBE(0, 16) + d)[16..] == d;
    }
  }

  /** Feature vectors as one byte for each feature. */
  function FeatureBytes(features: set<Feature>): Text {
    seq(0x1_0000, i requires 0 <= i < 0x1_0000 => if i in features then 1 else 0)
  }

  function FeaturesFrom(bs: seq<byte>): Option<set<Feature>> {
    Some(set b: Feature | b < |bs| && bs[b] == 1)
  }

  const PLAIN: Lib := Lib(x => true, (tag, message) => ToBE(0, 32), FeatureBytes, FeaturesFrom,
                          nanos => if 0 <= nanos < 0x8000_0000_0000_0000 then nanos / 1_000_000_000 else 0)

  lemma FeatureBytesComeBack(features: set<Feature>)
    ensures FeaturesFrom(FeatureBytes(features)) == Some(features)
  {
    var bs := FeatureBytes(features);
    var back := FeaturesFrom(bs).value;
    forall b: Feature ensures b in back <==> b in features {
      assert bs[b] == if b in features then 1 else 0;
    }
    assert back == features;
  }

  lemma LibLawsAreMet()
    ensures PLAIN.Sound() && PLAIN.SoundSeconds()
  {
    forall features: set<Feature> ensures FeaturesFrom(FeatureBytes(features)) == Some(features) {
      FeatureBytesComeBack(features);
    }
  }
}
