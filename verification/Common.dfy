/** Vocabulary shared by every store: optional columns, instants, digests. */
module Common {
  datatype Option<+T> = None | Some(value: T)

  /** Microseconds on the database clock, the resolution of `timestamptz`. */
  type Timestamp = int

  const SECOND: int := 1_000_000

  /** SHA-256, idealised: a free constructor, so equal digests have equal preimages. */
  datatype Sha256<T> = Sha256(preimage: T)

  /** HMAC-SHA-256, idealised in the same way. */
  datatype Hmac = Hmac(key: string, message: string)

  /** The message that is hashed is the namespace, a colon and the value. */
  function ProtectedHash(secret: string, namespace: string, value: string): Hmac {
    Hmac(secret, namespace + ":" + value)
  }

  /** Namespaces hold no colon, so joining with one never confuses two principals. */
  lemma ProtectedHashSeparates(secret: string, n1: string, v1: string, n2: string, v2: string)
    requires ':' !in n1 && ':' !in n2
    ensures ProtectedHash(secret, n1, v1) == ProtectedHash(secret, n2, v2) <==> n1 == n2 && v1 == v2
  {
    var m1, m2 := n1 + ":" + v1, n2 + ":" + v2;
    if m1 == m2 {
      assert m1[|n1|] == ':' && m2[|n2|] == ':';
      assert forall k | 0 <= k < |n1| :: m1[k] in n1;
      assert forall k | 0 <= k < |n2| :: m2[k] in n2;
      assert n1 == m1[..|n1|] && n2 == m2[..|n2|];
      assert v1 == m1[|n1| + 1..] && v2 == m2[|n2| + 1..];
    }
  }
}
