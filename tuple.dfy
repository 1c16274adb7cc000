/** qlearning.util.Tuple: an immutable triple and its string form. */
module Tuples {
  import opened JavaErrors

  /** A triple; the three fields are set once, by the constructor. */
  datatype Tuple<K, V, E> = Tuple(key: K, value: V, element: E)
  {
    function Item1(): K { key }
    function Item2(): V { value }
    function Item3(): E { element }
  }

  /** The getters give back exactly what the constructor was given. */
  lemma ItemsOfConstruction<K, V, E>(k: K, v: V, e: E)
    ensures Tuple(k, v, e).Item1() == k && Tuple(k, v, e).Item2() == v && Tuple(k, v, e).Item3() == e
  {
  }

  /** toString: "(" key ", " value ", " element ")", where each component is
      shown by its own toString, passed in here. */
  function ToString<K, V, E>(t: Tuple<K, V, E>, showK: K -> string, showV: V -> string, showE: E -> string): (s: string)
    ensures |s| == 6 + |showK(t.key)| + |showV(t.value)| + |showE(t.element)|
    ensures s[0] == '(' && s[|s| - 1] == ')'
  {
    "(" + showK(t.key) + ", " + showV(t.value) + ", " + showE(t.element) + ")"
  }

  /** Reading a string back as a shown triple, given the lengths of the first
      two components: the parenthesis, the two ", " separators and the
      closing parenthesis must be where those lengths put them. */
  function Pieces(s: string, n1: nat, n2: nat): (r: Option<(string, string, string)>)
    ensures r.Some? ==> |s| >= n1 + n2 + 6 && |r.value.0| == n1 && |r.value.1| == n2
  {
    if |s| < n1 + n2 + 6 then None
    else if s[0] != '(' || s[1 + n1..3 + n1] != ", " || s[3 + n1 + n2..5 + n1 + n2] != ", " || s[|s| - 1] != ')' then None
    else Some((s[1..1 + n1], s[3 + n1..3 + n1 + n2], s[5 + n1 + n2..|s| - 1]))
  }

  /** The three shown components can be read back from toString. */
  lemma PiecesOfToString<K, V, E>(t: Tuple<K, V, E>, showK: K -> string, showV: V -> string, showE: E -> string)
    ensures
      var a, b, c := showK(t.key), showV(t.value), showE(t.element);
      Pieces(ToString(t, showK, showV, showE), |a|, |b|) == Some((a, b, c))
  {
    var a, b, c := showK(t.key), showV(t.value), showE(t.element);
    var s := ToString(t, showK, showV, showE);
    assert s == "(" + a + ", " + b + ", " + c + ")";
    var n1, n2 := |a|, |b|;
    assert s[1..1 + n1] == a;
    assert s[1 + n1..3 + n1] == ", ";
    assert s[3 + n1..3 + n1 + n2] == b;
    assert s[3 + n1 + n2..5 + n1 + n2] == ", ";
    assert s[5 + n1 + n2..|s| - 1] == c;
  }

  /** Whatever Pieces reads back, put together again, is the string read. */
  lemma PiecesRebuild(s: string, n1: nat, n2: nat)
    requires Pieces(s, n1, n2).Some?
    ensures
      var (a, b, c) := Pieces(s, n1, n2).value;
      s == "(" + a + ", " + b + ", " + c + ")"
  {
    var (a, b, c) := Pieces(s, n1, n2).value;
    var t := "(" + a + ", " + b + ", " + c + ")";
    assert |t| == |s|;
    forall i | 0 <= i < |s|
      ensures s[i] == t[i]
    {
      if i == 0 {
      } else if i < 1 + n1 {
        assert s[i] == s[1..1 + n1][i - 1];
      } else if i < 3 + n1 {
        assert s[i] == s[1 + n1..3 + n1][i - 1 - n1];
      } else if i < 3 + n1 + n2 {
        assert s[i] == s[3 + n1..3 + n1 + n2][i - 3 - n1];
      } else if i < 5 + n1 + n2 {
        assert s[i] == s[3 + n1 + n2..5 + n1 + n2][i - 3 - n1 - n2];
      } else if i < |s| - 1 {
        assert s[i] == s[5 + n1 + n2..|s| - 1][i - 5 - n1 - n2];
      }
    }
  }

  predicate CommaFree(s: string)
  {
    forall i :: 0 <= i < |s| ==> s[i] != ','
  }

  /** The position of the first comma at or after position `from`, or |s|. */
  function CommaFrom(s: string, from: nat): (i: nat)
    requires from <= |s|
    ensures from <= i <= |s|
    ensures i < |s| ==> s[i] == ','
    ensures forall j :: from <= j < i ==> s[j] != ','
    decreases |s| - from
  {
    if from == |s| || s[from] == ',' then from else CommaFrom(s, from + 1)
  }

  /** In toString of a triple whose first two components have no comma, the
      first comma ends the key and the next one ends the value. */
  lemma CommasOfToString<K, V, E>(t: Tuple<K, V, E>, showK: K -> string, showV: V -> string, showE: E -> string)
    requires CommaFree(showK(t.key)) && CommaFree(showV(t.value))
    ensures
      var s, a, b := ToString(t, showK, showV, showE), showK(t.key), showV(t.value);
      CommaFrom(s, 0) == 1 + |a| && CommaFrom(s, 2 + |a|) == 3 + |a| + |b|
  {
    var a, b, c := showK(t.key), showV(t.value), showE(t.element);
    var s := ToString(t, showK, showV, showE);
    assert s == "(" + a + ", " + b + ", " + c + ")";
    assert s[1 + |a|] == ',';
    assert s[3 + |a| + |b|] == ',';
    forall j | 0 <= j < 1 + |a|
      ensures s[j] != ','
    {
      if j > 0 {
        assert s[j] == a[j - 1];
      }
    }
    forall j | 2 + |a| <= j < 3 + |a| + |b|
      ensures s[j] != ','
    {
      if j > 2 + |a| {
        assert s[j] == b[j - 3 - |a|];
      }
    }
    CommaFromFirst(s, 0, 1 + |a|);
    CommaFromFirst(s, 2 + |a|, 3 + |a| + |b|);
  }

  /** CommaFrom finds a comma that has no comma before it. */
  lemma {:induction false} CommaFromFirst(s: string, from: nat, i: nat)
    requires from <= i < |s| && s[i] == ','
    requires forall j :: from <= j < i ==> s[j] != ','
    ensures CommaFrom(s, from) == i
    decreases i - from
  {
    if from < i {
      CommaFromFirst(s, from + 1, i);
    }
  }

  /** When the key and the value show without commas, toString tells the
      shown components apart: equal strings mean equal components. */
  lemma ToStringInjective<K, V, E>(t: Tuple<K, V, E>, u: Tuple<K, V, E>,
                                   showK: K -> string, showV: V -> string, showE: E -> string)
    requires CommaFree(showK(t.key)) && CommaFree(showV(t.value))
    requires CommaFree(showK(u.key)) && CommaFree(showV(u.value))
    requires ToString(t, showK, showV, showE) == ToString(u, showK, showV, showE)
    ensures showK(t.key) == showK(u.key) && showV(t.value) == showV(u.value) && showE(t.element) == showE(u.element)
  {
    CommasOfToString(t, showK, showV, showE);
    CommasOfToString(u, showK, showV, showE);
    var n1, n2 := |showK(t.key)|, |showV(t.value)|;
    assert n1 == |showK(u.key)| && n2 == |showV(u.value)|;
    PiecesOfToString(t, showK, showV, showE);
    PiecesOfToString(u, showK, showV, showE);
  }
}
