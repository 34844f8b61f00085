/** Archive batch keys: `session_id:first_message_id:last_message_id`. Archives are
    found and reused by this key alone. */
module ArchiveKeys {

  function BatchKey(sessionId: string, first: string, last: string): string {
    sessionId + ":" + first + ":" + last
  }

  predicate NoColon(s: string) {
    ':' !in s
  }

  /** If one head of a join is shorter, the longer one contains the separator. */
  lemma LongerHeadHasColon(a: string, x: string, b: string, y: string)
    requires a + ":" + x == b + ":" + y && |a| < |b|
    ensures ':' in b
  {
    assert (a + ":" + x)[|a|] == ':';
    assert (b + ":" + y)[|a|] == b[|a|];
  }

  lemma JoinHasUniqueHead(a: string, x: string, b: string, y: string)
    requires a + ":" + x == b + ":" + y
    requires NoColon(a) && NoColon(b)
    ensures a == b && x == y
  {
    if |a| < |b| {
      LongerHeadHasColon(a, x, b, y);
    } else if |b| < |a| {
      LongerHeadHasColon(b, y, a, x);
    } else {
      assert (a + ":" + x)[..|a|] == a && (b + ":" + y)[..|b|] == b;
      assert (a + ":" + x)[|a| + 1..] == x && (b + ":" + y)[|b| + 1..] == y;
    }
  }

  /** Keys identify the session and both boundary messages when the session id and
      the first message id contain no ':'; the last id is unrestricted. */
  lemma KeysAreInjective(s1: string, f1: string, l1: string, s2: string, f2: string, l2: string)
    requires NoColon(s1) && NoColon(s2) && NoColon(f1) && NoColon(f2)
    requires BatchKey(s1, f1, l1) == BatchKey(s2, f2, l2)
    ensures s1 == s2 && f1 == f2 && l1 == l2
  {
    assert BatchKey(s1, f1, l1) == s1 + ":" + (f1 + ":" + l1);
    assert BatchKey(s2, f2, l2) == s2 + ":" + (f2 + ":" + l2);
    JoinHasUniqueHead(s1, f1 + ":" + l1, s2, f2 + ":" + l2);
    JoinHasUniqueHead(f1, l1, f2, l2);
  }

  /** One first id runs past the other's ':' and the last ids make up for it. */
  ghost predicate Overlaps(f1: string, l1: string, f2: string, l2: string) {
    |f1| > |f2| && f1[..|f2|] == f2 && f1[|f2|] == ':' && l2 == f1[|f2| + 1..] + ":" + l1
  }

  /** Exactly when two boundary pairs of one session share a key. */
  lemma KeyCollisions(s: string, f1: string, l1: string, f2: string, l2: string)
    ensures BatchKey(s, f1, l1) == BatchKey(s, f2, l2)
            <==> (f1, l1) == (f2, l2) || Overlaps(f1, l1, f2, l2) || Overlaps(f2, l2, f1, l1)
  {
    OverlapCollides(s, f1, l1, f2, l2);
    OverlapCollides(s, f2, l2, f1, l1);
    if BatchKey(s, f1, l1) == BatchKey(s, f2, l2) {
      if |f2| <= |f1| {
        CollisionOverlaps(s, f1, l1, f2, l2);
      } else {
        CollisionOverlaps(s, f2, l2, f1, l1);
      }
    }
  }

  lemma OverlapCollides(s: string, f1: string, l1: string, f2: string, l2: string)
    ensures Overlaps(f1, l1, f2, l2) ==> BatchKey(s, f1, l1) == BatchKey(s, f2, l2)
  {
    if Overlaps(f1, l1, f2, l2) {
      assert f1 == f2 + ":" + f1[|f2| + 1..];
      assert f1 + ":" + l1 == f2 + ":" + l2;
      assert BatchKey(s, f1, l1) == s + ":" + (f1 + ":" + l1);
      assert BatchKey(s, f2, l2) == s + ":" + (f2 + ":" + l2);
    }
  }

  lemma CollisionOverlaps(s: string, f1: string, l1: string, f2: string, l2: string)
    requires BatchKey(s, f1, l1) == BatchKey(s, f2, l2) && |f2| <= |f1|
    ensures (f1, l1) == (f2, l2) || Overlaps(f1, l1, f2, l2)
  {
    var t1, t2 := f1 + ":" + l1, f2 + ":" + l2;
    assert t1 == BatchKey(s, f1, l1)[|s| + 1..] == BatchKey(s, f2, l2)[|s| + 1..] == t2;
    assert t2[..|f2|] == f2 && t1[..|f2|] == f1[..|f2|];
    assert t2[|f2|] == ':' && t2[|f2| + 1..] == l2;
    if |f2| < |f1| {
      assert t1[|f2|] == f1[|f2|] && t1[|f2| + 1..] == f1[|f2| + 1..] + ":" + l1;
    } else {
      assert f1[..|f2|] == f1 && t1[|f1| + 1..] == l1;
    }
  }
}
