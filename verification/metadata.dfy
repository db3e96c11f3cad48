/**
 * The two forms of record metadata: the ordered array of name/value pairs a
 * `Record` carries, and the name-to-value map the modules build from it
 * (`metadata[name] = value` in a loop, or Rust's `collect` into a `HashMap`).
 */
module Metadata {
  import opened Typedefs

  /** The names of the pairs, in array order. */
  function Names(md: seq<MetaPair>): (ns: seq<string>)
    ensures |ns| == |md|
    ensures forall i :: 0 <= i < |md| ==> ns[i] == md[i].name
  {
    seq(|md|, i requires 0 <= i < |md| => md[i].name)
  }

  predicate Distinct<T(==)>(s: seq<T>) {
    forall i, j :: 0 <= i < j < |s| ==> s[i] != s[j]
  }

  /** The pair at `i` is the last one in the array with its name. */
  predicate IsLastOfName(md: seq<MetaPair>, i: int)
    requires 0 <= i < |md|
  {
    forall j :: i < j < |md| ==> md[j].name != md[i].name
  }

  /**
   * The metadata as a map, inserting the pairs in array order so that a
   * later pair overwrites an earlier one with the same name.
   */
  function MetadataMap(md: seq<MetaPair>): (m: map<string, string>)
    ensures forall n :: n in m <==> n in Names(md)
    ensures forall i :: 0 <= i < |md| && IsLastOfName(md, i) ==> m[md[i].name] == md[i].value
    decreases |md|
  {
    if |md| == 0 then map[]
    else
      var init := md[..|md| - 1];
      var last := md[|md| - 1];
      var m0 := MetadataMap(init);
      var m := m0[last.name := last.value];
      assert Names(md) == Names(init) + [last.name];
      assert forall i :: 0 <= i < |md| && IsLastOfName(md, i) ==> m[md[i].name] == md[i].value by {
        forall i | 0 <= i < |md| && IsLastOfName(md, i)
          ensures m[md[i].name] == md[i].value
        {
          if i < |init| {
            assert md[i].name != last.name;
            assert IsLastOfName(init, i) by {
              forall j | i < j < |init| ensures init[j].name != init[i].name {
                assert init[j] == md[j];
              }
            }
          }
        }
      }
      m
  }

  /** Every name of the map is the name of a last-of-its-name pair, whose value it holds. */
  lemma MetadataMapLastWins(md: seq<MetaPair>, n: string)
    requires n in MetadataMap(md)
    ensures exists i :: 0 <= i < |md| && md[i].name == n && IsLastOfName(md, i)
                        && MetadataMap(md)[n] == md[i].value
  {
    var i :| 0 <= i < |md| && Names(md)[i] == n;
    while !IsLastOfName(md, i)
      invariant 0 <= i < |md| && md[i].name == n
      decreases |md| - i
    {
      var next :| i < next < |md| && md[next].name == md[i].name;
      i := next;
    }
  }

  /** The elements of a sequence, as a set. */
  function Elements(s: seq<string>): (es: set<string>)
    ensures forall x :: x in es <==> x in s
  {
    set x | x in s
  }

  /** Appending keeps a sequence free of repetition exactly when the new element is new. */
  lemma DistinctSnoc(init: seq<string>, last: string)
    ensures Distinct(init + [last]) <==> Distinct(init) && last !in init
  {
    var s := init + [last];
    if Distinct(s) {
      forall i, j | 0 <= i < j < |init|
        ensures init[i] != init[j]
      {
        assert s[i] == init[i] && s[j] == init[j];
      }
      forall i | 0 <= i < |init|
        ensures init[i] != last
      {
        assert s[i] == init[i] && s[|init|] == last;
      }
    }
    if Distinct(init) && last !in init {
      forall i, j | 0 <= i < j < |s|
        ensures s[i] != s[j]
      {
        assert s[i] == init[i];
        if j < |init| {
          assert s[j] == init[j];
        }
      }
    }
  }

  /** A sequence has at least as many positions as elements, and exactly as many iff it has no repetition. */
  lemma {:induction false} ElementsSize(s: seq<string>)
    ensures |Elements(s)| <= |s|
    ensures |Elements(s)| == |s| <==> Distinct(s)
    decreases |s|
  {
    if |s| > 0 {
      var init := s[..|s| - 1];
      var last := s[|s| - 1];
      ElementsSize(init);
      assert s == init + [last];
      DistinctSnoc(init, last);
      assert Elements(s) == Elements(init) + {last};
      if last in init {
        assert Elements(s) == Elements(init);
      } else {
        assert |Elements(s)| == |Elements(init)| + 1;
      }
    }
  }

  /** `order` lists every key of the map once: a `HashMap` iteration order. */
  predicate IsEnumeration(order: seq<string>, keys: set<string>) {
    && Distinct(order)
    && (forall k :: k in order ==> k in keys)
    && (forall k :: k in keys ==> k in order)
  }

  /** An enumeration is as long as the set it enumerates. */
  lemma EnumerationSize(order: seq<string>, keys: set<string>)
    requires IsEnumeration(order, keys)
    ensures |order| == |keys|
  {
    ElementsSize(order);
    assert Elements(order) == keys;
  }
}
