/**
 Bucket keys and local paths (the key helpers of engine.go).  Both are plain strings; paths on the
 supported systems already use '/'.
*/
module Keys {
  predicate HasPrefix(s: string, p: string) { p <= s }

  function TrimPrefix(s: string, p: string): string {
    if p <= s then s[|p|..] else s
  }

  predicate OccursAt(s: string, sub: string, i: nat) {
    i <= |s| && sub <= s[i..]
  }

  predicate Contains(s: string, sub: string) {
    exists i | 0 <= i <= |s| :: OccursAt(s, sub, i)
  }

  function KeyPrefix(machine: string): string {
    "dropboy/v1/" + machine + "/"
  }

  function KeyFor(machine: string, path: string): string {
    KeyPrefix(machine) + TrimPrefix(path, "/")
  }

  function PathFromKey(machine: string, key: string): string {
    "/" + TrimPrefix(key, KeyPrefix(machine))
  }

  predicate Absolute(path: string) { HasPrefix(path, "/") }

  const RESERVED: string := "/.dropboy/"

  // The keys a remote scan keeps.
  predicate Listed(machine: string, key: string) {
    HasPrefix(key, KeyPrefix(machine)) && !Contains(key, RESERVED)
  }

  /* ---- what these mean ---- */

  lemma PrefixExactly(s: string, p: string)
    ensures HasPrefix(s, p) <==> exists rest :: s == p + rest
    ensures TrimPrefix(p + s, p) == s && (!HasPrefix(s, p) ==> TrimPrefix(s, p) == s)
  {
    if HasPrefix(s, p) {
      assert s == p + s[|p|..];
    }
    assert (p + s)[|p|..] == s;
  }

  lemma ContainsExactly(s: string, sub: string)
    ensures Contains(s, sub) <==> exists a, b :: s == a + sub + b
  {
    if Contains(s, sub) {
      var i :| 0 <= i <= |s| && OccursAt(s, sub, i);
      var b := s[i..][|sub|..];
      assert s == s[..i] + s[i..] && s[i..] == sub + b;
      assert s == s[..i] + sub + b;
    }
    if a, b :| s == a + sub + b {
      assert s[|a|..] == sub + b;
      assert OccursAt(s, sub, |a|);
    }
  }

  // The layout of keys, and what a scan never sees.
  lemma KeyLayout(machine: string, path: string)
    ensures Absolute(path) <==> exists rest :: path == "/" + rest
    ensures Absolute(path) ==> KeyFor(machine, path) == "dropboy/v1/" + machine + path
    ensures !Absolute(path) ==> KeyFor(machine, path) == "dropboy/v1/" + machine + "/" + path
  {
    PrefixExactly(path, "/");
    if Absolute(path) {
      assert path == "/" + path[1..];
      assert "dropboy/v1/" + machine + "/" + path[1..] == "dropboy/v1/" + machine + ("/" + path[1..]);
    }
  }

  lemma ListedExactly(machine: string, key: string)
    ensures Listed(machine, key) <==>
            (exists rest :: key == "dropboy/v1/" + machine + "/" + rest) && !(exists a, b :: key == a + "/.dropboy/" + b)
  {
    PrefixExactly(key, KeyPrefix(machine));
    ContainsExactly(key, RESERVED);
  }

  // Between absolute paths and keys under the machine's prefix the two helpers are mutual inverses.
  lemma KeyRoundTrip(machine: string, path: string, key: string)
    ensures HasPrefix(KeyFor(machine, path), KeyPrefix(machine))
    ensures Absolute(PathFromKey(machine, key))
    ensures Absolute(path) <==> PathFromKey(machine, KeyFor(machine, path)) == path
    ensures HasPrefix(key, KeyPrefix(machine)) <==> KeyFor(machine, PathFromKey(machine, key)) == key
  {
    var pre := KeyPrefix(machine);
    assert KeyFor(machine, path)[|pre|..] == TrimPrefix(path, "/");
    if Absolute(path) {
      assert path == "/" + path[1..];
    }
    assert ("/" + TrimPrefix(key, pre))[1..] == TrimPrefix(key, pre);
    if HasPrefix(key, pre) {
      assert key == pre + key[|pre|..];
    }
  }

  lemma KeyForInjective(machine: string, p: string, q: string)
    requires Absolute(p) && Absolute(q) && KeyFor(machine, p) == KeyFor(machine, q)
    ensures p == q
  {
    KeyRoundTrip(machine, p, "");
    KeyRoundTrip(machine, q, "");
  }

  // One machine's name is the other's, or starts with the other's and a '/'.
  predicate Overlapping(m1: string, m2: string) {
    m1 == m2 || HasPrefix(m2, m1 + "/") || HasPrefix(m1, m2 + "/")
  }

  lemma SharedKeyOverlaps(m1: string, m2: string, key: string)
    requires HasPrefix(key, KeyPrefix(m1)) && HasPrefix(key, KeyPrefix(m2)) && |m1| <= |m2|
    ensures Overlapping(m1, m2)
  {
    var root := "dropboy/v1/";
    assert KeyPrefix(m1) == root + (m1 + "/") && KeyPrefix(m2) == root + (m2 + "/");
    assert key[|root|..][..|m1| + 1] == m1 + "/";
    assert key[|root|..][..|m2| + 1] == m2 + "/";
    assert (m2 + "/")[..|m1| + 1] == m1 + "/";
    if |m1| == |m2| {
      assert m1 == (m1 + "/")[..|m1|] == (m2 + "/")[..|m2|] == m2;
    } else {
      assert m2[..|m1| + 1] == m1 + "/";
    }
  }

  // Two machines share a key exactly when their names overlap.
  lemma KeySpacesOverlap(m1: string, m2: string)
    ensures (exists key :: HasPrefix(key, KeyPrefix(m1)) && HasPrefix(key, KeyPrefix(m2))) <==> Overlapping(m1, m2)
  {
    if key :| HasPrefix(key, KeyPrefix(m1)) && HasPrefix(key, KeyPrefix(m2)) {
      if |m1| <= |m2| {
        SharedKeyOverlaps(m1, m2, key);
      } else {
        SharedKeyOverlaps(m2, m1, key);
      }
    }
    if HasPrefix(m2, m1 + "/") {
      SlashInMachineNameOverlaps(m1, m2[|m1| + 1..], "/");
      assert m2 == m1 + "/" + m2[|m1| + 1..];
      assert HasPrefix(KeyFor(m2, "/"), KeyPrefix(m1)) && HasPrefix(KeyFor(m2, "/"), KeyPrefix(m2));
    } else if HasPrefix(m1, m2 + "/") {
      SlashInMachineNameOverlaps(m2, m1[|m2| + 1..], "/");
      assert m1 == m2 + "/" + m1[|m2| + 1..];
      assert HasPrefix(KeyFor(m1, "/"), KeyPrefix(m1)) && HasPrefix(KeyFor(m1, "/"), KeyPrefix(m2));
    } else if m1 == m2 {
      assert HasPrefix(KeyPrefix(m1), KeyPrefix(m1)) && HasPrefix(KeyPrefix(m1), KeyPrefix(m2));
    }
  }

  // Distinct names that hold no '/' do not overlap, so such machines have no key in common.
  lemma SlashFreeNamesApart(m1: string, m2: string)
    requires '/' !in m1 && '/' !in m2
    ensures Overlapping(m1, m2) <==> m1 == m2
  {
    SlashFollows(m1, m2);
    SlashFollows(m2, m1);
  }

  lemma SlashFollows(m: string, longer: string)
    ensures HasPrefix(longer, m + "/") ==> '/' in longer
  {
    if HasPrefix(longer, m + "/") {
      assert longer[|m|] == (m + "/")[|m|];
    }
  }

  lemma PrefixesDisjoint(m1: string, m2: string, key: string)
    requires '/' !in m1 && '/' !in m2
    requires HasPrefix(key, KeyPrefix(m1)) && HasPrefix(key, KeyPrefix(m2))
    ensures m1 == m2
  {
    hide KeyPrefix, Overlapping;
    KeySpacesOverlap(m1, m2);
    SlashFreeNamesApart(m1, m2);
  }

  // When one name extends another at a '/', the machine with the shorter name scans all the other's objects.
  lemma SlashInMachineNameOverlaps(m: string, rest: string, path: string)
    requires Absolute(path)
    ensures HasPrefix(KeyFor(m + "/" + rest, path), KeyPrefix(m))
  {
    assert KeyFor(m + "/" + rest, path) == KeyPrefix(m) + (rest + "/" + TrimPrefix(path, "/"));
  }
}
