/** Comma separated lists: what g_strsplit(text, ",", 0) returns, and its inverse. */
module Tokens {

  predicate CommaFree(s: string) {
    ',' !in s
  }

  /** The fields between the commas; never empty. */
  function Fields(s: string): (r: seq<string>)
    ensures |r| > 0
  {
    if s == "" then [""]
    else
      var rest := Fields(s[1..]);
      if s[0] == ',' then [""] + rest else [[s[0]] + rest[0]] + rest[1..]
  }

  /** g_strsplit: as Fields, but the empty string has no fields at all. */
  function Split(s: string): seq<string> {
    if s == "" then [] else Fields(s)
  }

  function Join(ts: seq<string>): string {
    if |ts| == 0 then ""
    else if |ts| == 1 then ts[0]
    else Join(ts[..|ts| - 1]) + "," + ts[|ts| - 1]
  }

  function NonEmpty(ts: seq<string>): (r: seq<string>)
    ensures "" !in r
  {
    if |ts| == 0 then []
    else if ts[|ts| - 1] == "" then NonEmpty(ts[..|ts| - 1])
    else NonEmpty(ts[..|ts| - 1]) + [ts[|ts| - 1]]
  }

  lemma {:induction false} FieldsOfCommaFree(s: string)
    requires CommaFree(s)
    ensures Fields(s) == [s]
  {
    if s != "" {
      FieldsOfCommaFree(s[1..]);
      assert [s[0]] + s[1..] == s;
    }
  }

  lemma FieldsOfCons(c: char, s: string)
    ensures Fields([c] + s) == if c == ',' then [""] + Fields(s) else [[c] + Fields(s)[0]] + Fields(s)[1..]
  {
    assert ([c] + s)[1..] == s;
  }

  lemma FirstOfConcat(first: seq<string>, rest: seq<string>, c: char)
    requires |first| > 0
    ensures [[c] + (first + rest)[0]] + (first + rest)[1..] == ([[c] + first[0]] + first[1..]) + rest
  {
    assert (first + rest)[1..] == first[1..] + rest;
  }

  lemma Regroup(t: string, first: seq<string>, rest: seq<string>)
    ensures [t] + (first + rest) == ([t] + first) + rest
  {
  }

  /** One more character in front only concerns the first field. */
  lemma FieldsOfLonger(c: char, s: string, first: seq<string>, rest: seq<string>)
    requires |first| > 0 && Fields(s) == first + rest
    ensures Fields([c] + s) == (if c == ',' then [""] + first else [[c] + first[0]] + first[1..]) + rest
  {
    FieldsOfCons(c, s);
    if c == ',' {
      Regroup("", first, rest);
    } else {
      FirstOfConcat(first, rest, c);
    }
  }

  lemma {:induction false} FieldsOfConcat(a: string, b: string)
    ensures Fields(a + "," + b) == Fields(a) + Fields(b)
  {
    if a == "" {
      FieldsOfCons(',', b);
      assert a + "," + b == [','] + b;
    } else {
      var c, t := a[0], a[1..];
      FieldsOfConcat(t, b);
      FieldsOfLonger(c, t + "," + b, Fields(t), Fields(b));
      FieldsOfCons(c, t);
      assert a == [c] + t;
      assert a + "," + b == [c] + (t + "," + b);
    }
  }

  lemma {:induction false} FieldsAreCommaFree(s: string)
    ensures forall t :: t in Fields(s) ==> CommaFree(t)
  {
    if s != "" {
      FieldsAreCommaFree(s[1..]);
      var rest := Fields(s[1..]);
      assert CommaFree(rest[0]);
      forall t | t in Fields(s) ensures CommaFree(t) {
        if s[0] != ',' && t == [s[0]] + rest[0] {
          assert ',' !in t;
        }
      }
    }
  }

  /** Splitting undoes joining, for any nonempty list of comma-free tokens. */
  lemma {:induction false} FieldsOfJoin(ts: seq<string>)
    requires |ts| > 0
    requires forall t :: t in ts ==> CommaFree(t)
    ensures Fields(Join(ts)) == ts
  {
    var last := ts[|ts| - 1];
    FieldsOfCommaFree(last);
    if |ts| > 1 {
      var init := ts[..|ts| - 1];
      FieldsOfJoin(init);
      FieldsOfConcat(Join(init), last);
      assert ts == init + [last];
    }
  }

  lemma {:induction false} JoinEmpty(ts: seq<string>)
    ensures Join(ts) == "" <==> (ts == [] || ts == [""])
  {
  }

  lemma {:induction false} NonEmptyKeeps(ts: seq<string>)
    requires "" !in ts
    ensures NonEmpty(ts) == ts
  {
    if |ts| > 0 {
      NonEmptyKeeps(ts[..|ts| - 1]);
      assert ts == ts[..|ts| - 1] + [ts[|ts| - 1]];
    }
  }

  lemma {:induction false} NonEmptyMembers(ts: seq<string>)
    ensures forall t :: t in NonEmpty(ts) <==> t in ts && t != ""
  {
    if |ts| > 0 {
      NonEmptyMembers(ts[..|ts| - 1]);
      assert ts == ts[..|ts| - 1] + [ts[|ts| - 1]];
    }
  }
}
