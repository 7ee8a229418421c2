/** `_generate_hash_code`: the identifier of a new KPI individual, derived from
    the SHA-256 digest of its label. The digest itself is computed outside this
    module (SHA-256 is not modelled); everything after it is. */
module HashCode {
  import opened Base64Url

  /** A SHA-256 digest: 32 bytes. */
  type Digest = d: seq<Byte> | |d| == 32 witness seq(32, _ => 0)

  /** Length the cleaned encoding is cut to. */
  const CodeLength: nat := 22

  /** Python's `s.replace(c, '')`. */
  function RemoveChar(s: string, c: char): (r: string)
    ensures c !in r
    ensures |r| <= |s|
    ensures forall x :: x in r ==> x in s
  {
    if s == [] then []
    else if s[0] == c then RemoveChar(s[1..], c)
    else [s[0]] + RemoveChar(s[1..], c)
  }

  /** Removal keeps the other characters in their order: it distributes over
      concatenation. */
  lemma {:induction false} RemoveCharAppend(a: string, b: string, c: char)
    ensures RemoveChar(a + b, c) == RemoveChar(a, c) + RemoveChar(b, c)
    decreases |a|
  {
    if a != [] {
      assert (a + b)[0] == a[0];
      assert (a + b)[1..] == a[1..] + b;
      RemoveCharAppend(a[1..], b, c);
    } else {
      assert a + b == b;
    }
  }

  /** Removal keeps every other character as often as it occurs. */
  lemma {:induction false} RemoveCharCount(s: string, c: char, x: char)
    requires x != c
    ensures multiset(RemoveChar(s, c))[x] == multiset(s)[x]
    decreases |s|
  {
    if s != [] {
      assert s == [s[0]] + s[1..];
      RemoveCharCount(s[1..], c, x);
    }
  }

  /** `hash_b64.replace('-', '').replace('_', '')`. */
  function Clean(s: string): (r: string)
    ensures '-' !in r && '_' !in r
    ensures forall x :: x in r ==> x in s
  {
    RemoveChar(RemoveChar(s, '-'), '_')
  }

  lemma CleanCount(s: string, x: char)
    requires x != '-' && x != '_'
    ensures multiset(Clean(s))[x] == multiset(s)[x]
  {
    RemoveCharCount(s, '-', x);
    RemoveCharCount(RemoveChar(s, '-'), '_', x);
  }

  lemma CleanAppend(a: string, b: string)
    ensures Clean(a + b) == Clean(a) + Clean(b)
  {
    RemoveCharAppend(a, b, '-');
    RemoveCharAppend(RemoveChar(a, '-'), RemoveChar(b, '-'), '_');
  }

  /** `_generate_hash_code` after the digest: encode, clean, keep at most 22 characters. */
  function GenerateHashCode(digest: seq<Byte>): (code: string)
    ensures |code| <= CodeLength
    ensures '-' !in code && '_' !in code
    ensures forall i :: 0 <= i < |code| ==> IsAlphanumeric(code[i]) || code[i] == Pad
    ensures code <= Clean(Encode(digest))
    ensures |code| == CodeLength || code == Clean(Encode(digest))
  {
    var clean := Clean(Encode(digest));
    EncodeAlphabet(digest);
    assert forall i :: 0 <= i < |clean| ==> IsAlphanumeric(clean[i]) || clean[i] == Pad by {
      forall i | 0 <= i < |clean| ensures IsAlphanumeric(clean[i]) || clean[i] == Pad {
        assert clean[i] in Encode(digest);
      }
    }
    if |clean| <= CodeLength then clean else clean[..CodeLength]
  }

  /** For a SHA-256 digest the encoding is 43 alphabet characters and one `=`,
      so once cleaning leaves more than 22 characters the identifier is purely
      alphanumeric. */
  lemma HashCodeAlphanumeric(digest: Digest)
    requires |Clean(Encode(digest))| > CodeLength
    ensures |GenerateHashCode(digest)| == CodeLength
    ensures forall i :: 0 <= i < CodeLength ==> IsAlphanumeric(GenerateHashCode(digest)[i])
  {
    var e := Encode(digest);
    EncodeAlphabet(digest);
    assert |e| == 44;
    var body := e[..43];
    assert e == body + [Pad];
    CleanAppend(body, [Pad]);
    assert Clean([Pad]) == [Pad];
    var cb := Clean(body);
    forall i | 0 <= i < |cb| ensures IsAlphanumeric(cb[i]) {
      assert cb[i] in body;
    }
  }

  lemma CleanEncodeTwoOnes()
    ensures Clean(Encode([255, 255])) == "8="
  {
    assert Encode([255, 255]) == Tail([255, 255]) == "__8=";
    assert RemoveChar("__8=", '-') == "__8=";
    assert RemoveChar("__8=", '_') == "8=";
  }

  lemma CleanThreeOnes()
    ensures Clean(Group(255, 255, 255)) == []
  {
    assert Group(255, 255, 255) == "____";
    assert RemoveChar("____", '-') == "____";
  }

  /** Bytes that are all 0xFF, two more than a multiple of three, clean to "8=". */
  lemma {:induction false} CleanEncodeAllOnes(d: seq<Byte>, n: nat)
    requires |d| == 3 * n + 2 && forall i :: 0 <= i < |d| ==> d[i] == 255
    ensures Clean(Encode(d)) == "8="
    decreases n
  {
    if n == 0 {
      assert d == [255, 255];
      CleanEncodeTwoOnes();
    } else {
      CleanEncodeAllOnes(d[3..], n - 1);
      EncodeStep(d);
      CleanAppend(Group(d[0], d[1], d[2]), Encode(d[3..]));
      CleanThreeOnes();
    }
  }

  /** The `=` padding is not removed: a digest of 32 bytes 0xFF yields the
      identifier "8=", which is neither 22 characters long nor alphanumeric. */
  lemma PaddingSurvives(d: Digest)
    requires forall i :: 0 <= i < 32 ==> d[i] == 255
    ensures GenerateHashCode(d) == "8="
  {
    CleanEncodeAllOnes(d, 10);
  }
}
