/**
 * The plain string operations the script relies on, with Python's meaning:
 * `sub in s`, `s.split(' ')` and `' '.join(fields)`.
 */
module Text {

  /** `sub` occurs in `s` starting at position `i`. */
  predicate OccursAt(s: string, sub: string, i: nat) {
    i + |sub| <= |s| && s[i..i + |sub|] == sub
  }

  /** Python's `sub in s` on strings: a substring test, not a prefix test. */
  function Contains(s: string, sub: string): bool
    decreases |s|
  {
    if sub <= s then true
    else if |s| == 0 then false
    else Contains(s[1..], sub)
  }

  lemma {:induction false} ContainsIff(s: string, sub: string)
    ensures Contains(s, sub) <==> exists i: nat :: OccursAt(s, sub, i)
  {
    if Contains(s, sub) {
      ContainsSound(s, sub);
    }
    forall i: nat | OccursAt(s, sub, i) ensures Contains(s, sub) {
      ContainsComplete(s, sub, i);
    }
  }

  /** A positive test has an occurrence. */
  lemma {:induction false} ContainsSound(s: string, sub: string)
    requires Contains(s, sub)
    ensures exists i: nat :: OccursAt(s, sub, i)
    decreases |s|
  {
    if sub <= s {
      assert OccursAt(s, sub, 0);
    } else {
      ContainsSound(s[1..], sub);
      var i: nat :| OccursAt(s[1..], sub, i);
      assert s[i + 1..i + 1 + |sub|] == s[1..][i..i + |sub|];
      assert OccursAt(s, sub, i + 1);
    }
  }

  /** Any occurrence makes the test positive. */
  lemma {:induction false} ContainsComplete(s: string, sub: string, i: nat)
    requires OccursAt(s, sub, i)
    ensures Contains(s, sub)
    decreases i
  {
    if i > 0 && !(sub <= s) {
      assert s[1..][i - 1..i - 1 + |sub|] == s[i..i + |sub|];
      ContainsComplete(s[1..], sub, i - 1);
    }
  }

  /** A string that starts with `sub`, or has it anywhere later, contains it. */
  lemma ContainsShifted(prefix: string, sub: string, suffix: string)
    ensures Contains(prefix + sub + suffix, sub)
  {
    var s := prefix + sub + suffix;
    assert s[|prefix|..|prefix| + |sub|] == sub;
    assert OccursAt(s, sub, |prefix|);
    ContainsIff(s, sub);
  }

  /** A string shorter than `sub` cannot contain it. */
  lemma ShorterNeverContains(s: string, sub: string)
    requires |s| < |sub|
    ensures !Contains(s, sub)
  {
    ContainsIff(s, sub);
  }

  /** Python's `s.split(' ')`: every single space separates two fields, empty fields are kept. */
  function Split(s: string): (fields: seq<string>)
    ensures |fields| >= 1
    ensures forall k :: 0 <= k < |fields| ==> ' ' !in fields[k]
  {
    if |s| == 0 then [""]
    else
      var rest := Split(s[1..]);
      if s[0] == ' ' then [""] + rest
      else [[s[0]] + rest[0]] + rest[1..]
  }

  /** Python's `' '.join(fields)`. */
  function Join(fields: seq<string>): string {
    if |fields| == 0 then ""
    else if |fields| == 1 then fields[0]
    else fields[0] + " " + Join(fields[1..])
  }

  /** Joining the fields of a split gives back the string. */
  lemma {:induction false} JoinSplit(s: string)
    ensures Join(Split(s)) == s
  {
    if |s| > 0 {
      JoinSplit(s[1..]);
      var rest := Split(s[1..]);
      if s[0] == ' ' {
        assert Split(s) == [""] + rest;
        assert Join(Split(s)) == "" + " " + Join(rest);
      } else {
        assert rest == [rest[0]] + rest[1..];
        JoinHead(s[0], rest[0], rest[1..]);
      }
    }
  }

  /** Joining a field in front of more fields. */
  lemma JoinCons(f: string, rest: seq<string>)
    ensures Join([f] + rest) == if |rest| == 0 then f else f + " " + Join(rest)
  {
    var g := [f] + rest;
    assert g[0] == f && g[1..] == rest;
  }

  /** Prepending a character to the first field prepends it to the join. */
  lemma JoinHead(c: char, f: string, rest: seq<string>)
    ensures Join([[c] + f] + rest) == [c] + Join([f] + rest)
  {
    JoinCons(f, rest);
    JoinCons([c] + f, rest);
    if |rest| > 0 {
      assert ([c] + f) + " " + Join(rest) == [c] + (f + " " + Join(rest));
    }
  }

  /** Splitting a space-free field followed by a space and more text. */
  lemma {:induction false} SplitField(f: string, rest: string)
    requires ' ' !in f
    ensures Split(f + " " + rest) == [f] + Split(rest)
    ensures Split(f) == [f]
  {
    if |f| > 0 {
      SplitField(f[1..], rest);
      assert (f + " " + rest)[1..] == f[1..] + " " + rest;
      assert [f[0]] + f[1..] == f;
    } else {
      assert f + " " + rest == " " + rest;
    }
  }

  /** Splitting a join of space-free fields gives back the fields. */
  lemma {:induction false} SplitJoin(fields: seq<string>)
    requires |fields| >= 1
    requires forall k :: 0 <= k < |fields| ==> ' ' !in fields[k]
    ensures Split(Join(fields)) == fields
  {
    if |fields| == 1 {
      SplitField(fields[0], "");
    } else {
      SplitJoin(fields[1..]);
      SplitField(fields[0], Join(fields[1..]));
    }
  }

  /** The join of the first `k` fields is a prefix of the join of all of them. */
  lemma {:induction false} JoinPrefix(fields: seq<string>, k: nat)
    requires k <= |fields|
    ensures Join(fields[..k]) <= Join(fields)
  {
    if k > 0 && |fields| > 1 {
      if k == 1 {
        assert fields[..1] == [fields[0]];
      } else {
        JoinPrefix(fields[1..], k - 1);
        assert fields[..k][1..] == fields[1..][..k - 1];
      }
    }
  }
}
