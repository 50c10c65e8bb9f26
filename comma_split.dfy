/** Python's `str.split(',')` and `','.join(...)` on strings, stated exactly:
    no trimming, empty fields are kept, and the result is never empty. */
module CommaSplit {

  /** Number of commas in `s`, as Python's `s.count(',')`. */
  function CountComma(s: string): nat {
    multiset(s)[',']
  }

  /** `s.split(',')`: the maximal comma-free fields of `s`, left to right.
      A string with k commas has k + 1 fields, possibly empty ones. */
  function SplitComma(s: string): (r: seq<string>)
    ensures |r| >= 1
    ensures forall i :: 0 <= i < |r| ==> ',' !in r[i]
    decreases |s|
  {
    if |s| == 0 then [""]
    else
      var rest := SplitComma(s[1..]);
      if s[0] == ',' then [""] + rest
      else [[s[0]] + rest[0]] + rest[1..]
  }

  /** `','.join(parts)`. */
  function JoinComma(parts: seq<string>): string {
    if |parts| == 0 then ""
    else if |parts| == 1 then parts[0]
    else parts[0] + "," + JoinComma(parts[1..])
  }

  /** Every field of a result of `SplitComma` is comma-free, and there is at least one. */
  predicate WellFormedFields(parts: seq<string>) {
    |parts| >= 1 && forall i :: 0 <= i < |parts| ==> ',' !in parts[i]
  }

  /** Splitting yields exactly one more field than there are commas. */
  lemma {:induction false} SplitCommaCount(s: string)
    ensures |SplitComma(s)| == CountComma(s) + 1
    decreases |s|
  {
    if |s| > 0 {
      SplitCommaCount(s[1..]);
      assert s == [s[0]] + s[1..];
      assert multiset(s) == multiset{s[0]} + multiset(s[1..]);
    }
  }

  /** Prepending a non-comma character to the first field prepends it to the join. */
  lemma JoinCommaPrepend(c: char, parts: seq<string>)
    requires |parts| >= 1
    ensures JoinComma([[c] + parts[0]] + parts[1..]) == [c] + JoinComma(parts)
  {
  }

  /** Joining the fields with "," gives back the original string (no lost
      characters, no trimming, no dropped empty fields). */
  lemma {:induction false} JoinSplitComma(s: string)
    ensures JoinComma(SplitComma(s)) == s
    decreases |s|
  {
    if |s| > 0 {
      var rest := SplitComma(s[1..]);
      JoinSplitComma(s[1..]);
      if s[0] == ',' {
        assert ([""] + rest)[1..] == rest;
        assert s == "," + s[1..];
      } else {
        JoinCommaPrepend(s[0], rest);
        assert s == [s[0]] + s[1..];
      }
    }
  }

  /** A comma-free string is a single field. */
  lemma {:induction false} SplitCommaNoComma(s: string)
    requires ',' !in s
    ensures SplitComma(s) == [s]
    decreases |s|
  {
    if |s| > 0 {
      assert ',' !in s[1..] by {
        forall k | 0 <= k < |s[1..]| ensures s[1..][k] != ',' {
          assert s[1..][k] == s[k + 1];
        }
      }
      SplitCommaNoComma(s[1..]);
      assert [s[0]] + s[1..] == s;
    }
  }

  /** A comma-free field followed by a comma splits off as the first field. */
  lemma {:induction false} SplitCommaField(a: string, t: string)
    requires ',' !in a
    ensures SplitComma(a + "," + t) == [a] + SplitComma(t)
    decreases |a|
  {
    var s := a + "," + t;
    if |a| == 0 {
      assert s == "," + t;
      assert s[1..] == t;
    } else {
      var a' := a[1..];
      assert ',' !in a' by {
        forall k | 0 <= k < |a'| ensures a'[k] != ',' {
          assert a'[k] == a[k + 1];
        }
      }
      assert s[0] == a[0];
      assert s[1..] == a' + "," + t;
      SplitCommaField(a', t);
      var rest := SplitComma(s[1..]);
      assert rest == [a'] + SplitComma(t);
      assert [a[0]] + a' == a;
      assert rest[1..] == SplitComma(t);
    }
  }

  /** Splitting a join of well-formed fields gives back those fields. */
  lemma {:induction false} SplitJoinComma(parts: seq<string>)
    requires WellFormedFields(parts)
    ensures SplitComma(JoinComma(parts)) == parts
    decreases |parts|
  {
    assert ',' !in parts[0];
    if |parts| == 1 {
      SplitCommaNoComma(parts[0]);
    } else {
      var tail := parts[1..];
      assert WellFormedFields(tail) by {
        forall i | 0 <= i < |tail| ensures ',' !in tail[i] {
          assert tail[i] == parts[i + 1];
        }
      }
      SplitJoinComma(tail);
      SplitCommaField(parts[0], JoinComma(tail));
      assert [parts[0]] + tail == parts;
    }
  }

  /** `SplitComma(s)` is the one and only list of comma-free fields, at least
      one of them, whose join is `s`. */
  lemma SplitCommaUnique(s: string, parts: seq<string>)
    ensures SplitComma(s) == parts <==> (WellFormedFields(parts) && JoinComma(parts) == s)
  {
    if SplitComma(s) == parts {
      JoinSplitComma(s);
    }
    if WellFormedFields(parts) && JoinComma(parts) == s {
      SplitJoinComma(parts);
    }
  }
}
