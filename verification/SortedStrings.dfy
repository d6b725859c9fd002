/** Strings in Go's order (UTF-8 byte order is code point order), and the sorted list of
    a finite set of them: sort.Strings on distinct keys, and json.Marshal on map keys. */
module SortedStrings {

  predicate Less(a: string, b: string) {
    b != "" && (a == "" || a[0] < b[0] || (a[0] == b[0] && Less(a[1..], b[1..])))
  }

  lemma {:induction false} LessTotal(a: string, b: string)
    ensures Less(a, b) || a == b || Less(b, a)
    ensures !(Less(a, b) && Less(b, a)) && !Less(a, a)
    decreases |a|
  {
    if a == "" {
    } else {
      LessTotal(a[1..], a[1..]);
      if b != "" {
        LessTotal(a[1..], b[1..]);
        assert a == [a[0]] + a[1..] && b == [b[0]] + b[1..];
      }
    }
  }

  lemma {:induction false} LessTransitive(a: string, b: string, c: string)
    requires Less(a, b) && Less(b, c)
    ensures Less(a, c)
    decreases |a|
  {
    if a != "" && a[0] == b[0] && b[0] == c[0] {
      LessTransitive(a[1..], b[1..], c[1..]);
    }
  }

  lemma {:induction false} DifferenceMoves(a: string, b: string)
    requires a != "" && b != "" && Less(a, b)
    requires Less(a[1..], b[1..]) ==>
               exists k :: 0 <= k <= |a[1..]| && k < |b[1..]| && a[1..][..k] == b[1..][..k] &&
                           (k == |a[1..]| || (a[1..][k] as int) < b[1..][k] as int)
    ensures exists k :: 0 <= k <= |a| && k < |b| && a[..k] == b[..k] && (k == |a| || (a[k] as int) < b[k] as int)
  {
    if a[0] != b[0] {
      assert a[..0] == b[..0];
    } else {
      var k :| 0 <= k <= |a[1..]| && k < |b[1..]| && a[1..][..k] == b[1..][..k] &&
               (k == |a[1..]| || (a[1..][k] as int) < b[1..][k] as int);
      assert a[..k + 1] == [a[0]] + a[1..][..k] && b[..k + 1] == [b[0]] + b[1..][..k];
    }
  }

  /** Go's order: a proper prefix comes first, and otherwise the first difference decides. */
  lemma {:induction false} LessAtFirstDifference(a: string, b: string)
    ensures Less(a, b) <==>
            exists k :: 0 <= k <= |a| && k < |b| && a[..k] == b[..k] && (k == |a| || (a[k] as int) < b[k] as int)
    decreases |a|
  {
    if b == "" || a == "" {
      assert b != "" ==> a[..0] == b[..0];
    } else {
      LessAtFirstDifference(a[1..], b[1..]);
      if Less(a, b) {
        DifferenceMoves(a, b);
      }
      if k :| 0 <= k <= |a| && k < |b| && a[..k] == b[..k] && (k == |a| || (a[k] as int) < b[k] as int) {
        if k > 0 {
          assert a[0] == a[..k][0] == b[..k][0] == b[0];
          assert a[1..][..k - 1] == a[..k][1..] == b[..k][1..] == b[1..][..k - 1];
        }
      }
    }
  }

  predicate IsLeast(least: string, keys: set<string>) {
    least in keys && forall key <- keys :: key == least || Less(least, key)
  }

  lemma {:induction false} LeastExists(keys: set<string>) returns (least: string)
    requires keys != {}
    ensures IsLeast(least, keys)
  {
    least :| least in keys;
    var rest := keys - {least};
    if rest != {} {
      var other := LeastExists(rest);
      LessTotal(least, other);
      var first, second := if Less(other, least) then other else least, if Less(other, least) then least else other;
      forall key | key in keys
        ensures key == first || Less(first, key)
      {
        assert key == least || key in rest;
        if key != first && key != second && first == least { LessTransitive(least, other, key); }
      }
      least := first;
    } else {
      assert keys == {least};
    }
  }

  lemma {:induction false} LeastUnique(a: string, b: string, keys: set<string>)
    requires IsLeast(a, keys) && IsLeast(b, keys)
    ensures a == b
  {
    LessTotal(a, b);
  }

  lemma {:induction false} LeastIsDefined(keys: set<string>)
    requires keys != {}
    ensures exists least :: IsLeast(least, keys)
  {
    var _ := LeastExists(keys);
  }

  function Least(keys: set<string>): (least: string)
    requires keys != {}
    ensures IsLeast(least, keys)
  {
    LeastIsDefined(keys);
    assert forall a, b :: IsLeast(a, keys) && IsLeast(b, keys) ==> a == b by {
      forall a, b | IsLeast(a, keys) && IsLeast(b, keys)
        ensures a == b
      {
        LeastUnique(a, b, keys);
      }
    }
    var least :| IsLeast(least, keys);
    least
  }

  predicate Ascending(list: seq<string>) {
    forall i, j :: 0 <= i < j < |list| ==> Less(list[i], list[j])
  }

  function Members(list: seq<string>): (keys: set<string>)
    ensures forall key :: key in keys <==> key in list
  {
    set key <- list
  }

  /** The members of a set in ascending order, each once. */
  function Sorted(keys: set<string>): seq<string>
    decreases |keys|
  {
    if keys == {} then [] else
      var least := Least(keys);
      [least] + Sorted(keys - {least})
  }

  lemma {:induction false} MembersCons(first: string, rest: seq<string>)
    ensures Members([first] + rest) == {first} + Members(rest)
  {
  }

  lemma {:induction false} LeastFirst(least: string, rest: seq<string>, keys: set<string>)
    requires IsLeast(least, keys) && Ascending(rest) && Members(rest) == keys - {least}
    ensures Ascending([least] + rest)
  {
    forall i | 0 <= i < |rest|
      ensures Less(least, rest[i])
    {
      assert rest[i] in Members(rest);
    }
  }

  lemma {:induction false} SortedSound(keys: set<string>)
    ensures Ascending(Sorted(keys)) && Members(Sorted(keys)) == keys && |Sorted(keys)| == |keys|
    decreases |keys|
  {
    if keys == {} {
    } else {
      var least := Least(keys);
      var rest := Sorted(keys - {least});
      SortedSound(keys - {least});
      MembersCons(least, rest);
      LeastFirst(least, rest, keys);
    }
  }
}
