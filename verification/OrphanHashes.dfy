/** The value of a 13_ key: 64-character block hashes, sorted and joined. */
module OrphanHashes {

  const HASH_LENGTH := 64

  type HashStr = s: string | |s| == HASH_LENGTH witness ZEROS

  // The next-hash of a block that has no successor.
  const ZEROS: string := "0000000000000000000000000000000000000000000000000000000000000000"

  // The order of std::string.
  predicate Less(s: string, t: string) {
    t != [] && (s == [] || s[0] < t[0] || (s[0] == t[0] && Less(s[1..], t[1..])))
  }

  // Up to some place k the two are alike; there t goes on, with a greater character if s
  // goes on as well.
  ghost predicate DiffersAt(s: string, t: string, k: nat) {
    k <= |s| && k < |t| && s[..k] == t[..k] && (k < |s| ==> s[k] < t[k])
  }

  lemma {:induction false} LessIsLexicographic(s: string, t: string)
    ensures Less(s, t) <==> exists k: nat :: DiffersAt(s, t, k)
    decreases |s|
  {
    if s == [] || t == [] || s[0] != t[0] {
      assert t != [] && (s == [] || s[0] < t[0]) ==> DiffersAt(s, t, 0);
      forall k: nat | DiffersAt(s, t, k) ensures Less(s, t) {
        assert k > 0 ==> s[..k][0] == t[..k][0];
      }
    } else {
      LessIsLexicographic(s[1..], t[1..]);
      if Less(s, t) {
        var k: nat :| DiffersAt(s[1..], t[1..], k);
        assert s[..k + 1] == [s[0]] + s[1..][..k] && t[..k + 1] == [t[0]] + t[1..][..k];
        assert DiffersAt(s, t, k + 1);
      }
      forall k: nat | DiffersAt(s, t, k) ensures Less(s, t) {
        if k > 0 {
          assert s[1..][..k - 1] == s[..k][1..] && t[1..][..k - 1] == t[..k][1..];
          assert DiffersAt(s[1..], t[1..], k - 1);
        }
      }
    }
  }

  lemma {:induction false} LessTotal(s: string, t: string)
    ensures Less(s, t) || s == t || Less(t, s)
    decreases |s|
  {
    if s != [] && t != [] && s[0] == t[0] {
      LessTotal(s[1..], t[1..]);
      if s[1..] == t[1..] {
        assert s == [s[0]] + s[1..] && t == [t[0]] + t[1..];
      }
    }
  }

  lemma {:induction false} LessTransitive(s: string, t: string, u: string)
    requires Less(s, t) && Less(t, u)
    ensures Less(s, u)
    decreases |s|
  {
    if s != [] && s[0] == t[0] == u[0] {
      LessTransitive(s[1..], t[1..], u[1..]);
    }
  }

  lemma {:induction false} NotLessItself(s: string)
    ensures !Less(s, s)
    decreases |s|
  {
    if s != [] {
      NotLessItself(s[1..]);
    }
  }

  // A sorted list without repeats: the contents of a std::set.
  ghost predicate Ascending(q: seq<HashStr>) {
    forall i, j :: 0 <= i < j < |q| ==> Less(q[i], q[j])
  }

  ghost function Elements(q: seq<HashStr>): set<HashStr> {
    set h | h in q
  }

  function Join(q: seq<HashStr>): string {
    if q == [] then "" else
      var first: string := q[0];
      first + Join(q[1..])
  }

  // The hashes of a joined value; a rest shorter than a hash is ignored.
  function Split(value: string): seq<HashStr> {
    if |value| < HASH_LENGTH then [] else [value[..HASH_LENGTH]] + Split(value[HASH_LENGTH..])
  }

  lemma {:induction false} SplitJoin(q: seq<HashStr>)
    ensures Split(Join(q)) == q && |Join(q)| == HASH_LENGTH * |q|
    decreases |q|
  {
    if q != [] {
      SplitJoin(q[1..]);
      var first: string, rest: string := q[0], Join(q[1..]);
      assert (first + rest)[..HASH_LENGTH] == first && (first + rest)[HASH_LENGTH..] == rest;
    }
  }

  // `value` is the sorted, duplicate-free concatenation of the set.
  ghost predicate Encodes(value: string, hashes: set<HashStr>) {
    exists q :: Ascending(q) && Elements(q) == hashes && value == Join(q)
  }

  lemma EncodedSet(value: string, hashes: set<HashStr>)
    requires Encodes(value, hashes)
    ensures Elements(Split(value)) == hashes
    ensures value == "" <==> hashes == {}
  {
    var q :| Ascending(q) && Elements(q) == hashes && value == Join(q);
    SplitJoin(q);
    if q != [] {
      assert q[0] in hashes;
    }
  }

  lemma SingletonEncodes(h: HashStr)
    ensures Encodes(h, {h}) && Encodes("", {})
  {
    assert Join([h]) == h + Join([h][1..]) == h;
    assert Ascending([h]) && Elements([h]) == {h};
    var e: seq<HashStr> := [];
    assert Ascending(e) && Elements(e) == {} && Join(e) == "";
  }

  // std::set::insert.
  method InsertInto(q: seq<HashStr>, h: HashStr) returns (r: seq<HashStr>)
    requires Ascending(q)
    ensures Ascending(r) && Elements(r) == Elements(q) + {h}
  {
    var i := 0;
    while i < |q| && Less(q[i], h)
      invariant 0 <= i <= |q| && forall j :: 0 <= j < i ==> Less(q[j], h)
    {
      i := i + 1;
    }
    if i < |q| && q[i] == h {
      return q;
    }
    forall j | i <= j < |q| ensures Less(h, q[j]) {
      LessTotal(q[i], h);
      if j > i {
        LessTransitive(h, q[i], q[j]);
      }
    }
    r := q[..i] + [h] + q[i..];
    assert q == q[..i] + q[i..];
  }

  // std::set::erase.
  method EraseFrom(q: seq<HashStr>, h: HashStr) returns (r: seq<HashStr>)
    requires Ascending(q)
    ensures Ascending(r) && Elements(r) == Elements(q) - {h}
  {
    for i := 0 to |q|
      invariant forall j :: 0 <= j < i ==> q[j] != h
    {
      if q[i] == h {
        r := q[..i] + q[i + 1..];
        assert q == q[..i] + [h] + q[i + 1..];
        forall j | 0 <= j < |q| && j != i ensures q[j] != h {
          NotLessItself(h);
        }
        return;
      }
    }
    r := q;
  }

  // The set of the hashes in the value.
  method Parse(value: string) returns (blks: seq<HashStr>)
    ensures Ascending(blks) && Elements(blks) == Elements(Split(value))
  {
    blks := [];
    var rest := value;
    while |rest| >= HASH_LENGTH
      invariant Ascending(blks)
      invariant Elements(blks) + Elements(Split(rest)) == Elements(Split(value))
      decreases |rest|
    {
      assert Split(rest) == [rest[..HASH_LENGTH]] + Split(rest[HASH_LENGTH..]);
      blks := InsertInto(blks, rest[..HASH_LENGTH]);
      rest := rest[HASH_LENGTH..];
    }
  }

  method Concat(blks: seq<HashStr>) returns (value: string)
    ensures value == Join(blks)
  {
    value := "";
    for i := 0 to |blks|
      invariant value + Join(blks[i..]) == Join(blks)
    {
      assert blks[i..][1..] == blks[i + 1..];
      value := value + blks[i];
    }
  }

  method RemoveOrphanBlockHash(hash: HashStr, value: string) returns (r: string)
    ensures Encodes(r, Elements(Split(value)) - {hash})
  {
    var blks := Parse(value);
    blks := EraseFrom(blks, hash);
    r := Concat(blks);
  }

  method InsertOrphanBlockHash(hash: HashStr, value: string) returns (r: string)
    ensures Encodes(r, Elements(Split(value)) + {hash})
  {
    if |value| == 0 {
      SingletonEncodes(hash);
      assert Elements(Split(value)) + {hash} == {hash};
      return hash;
    }
    var blks := Parse(value);
    blks := InsertInto(blks, hash);
    r := Concat(blks);
  }
}
