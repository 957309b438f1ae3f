/** Facts about sequences that the task manager relies on: finding the first
    position of a value (Array.prototype.findIndex), freedom from duplicates,
    and the subsequence order that Array.prototype.filter produces. */
module Sequencias {

  /** The first position of `x` in `s`, or -1 when `x` does not occur:
      what `findIndex` with an equality test returns. */
  function PrimeiroIndice<T(==)>(s: seq<T>, x: T): (k: int)
    ensures -1 <= k < |s|
    ensures k == -1 <==> x !in s
    ensures 0 <= k ==> s[k] == x && x !in s[..k]
  {
    if s == [] then -1
    else if s[0] == x then 0
    else
      var k := PrimeiroIndice(s[1..], x);
      if k == -1 then -1
      else
        assert s[..k + 1] == [s[0]] + s[1..][..k];
        k + 1
  }

  /** No value occurs twice in `s`. */
  predicate Distintos<T(==)>(s: seq<T>) {
    forall i, j :: 0 <= i < j < |s| ==> s[i] != s[j]
  }

  /** In a duplicate-free sequence every value occurs at most once. */
  lemma {:induction false} DistintosMultiplicidade<T>(s: seq<T>, x: T)
    requires Distintos(s)
    ensures multiset(s)[x] <= 1
  {
    if s != [] {
      assert Distintos(s[1..]) by {
        forall i, j | 0 <= i < j < |s[1..]| ensures s[1..][i] != s[1..][j] {
          assert s[1..][i] == s[i + 1] && s[1..][j] == s[j + 1];
        }
      }
      DistintosMultiplicidade(s[1..], x);
      assert s == [s[0]] + s[1..];
      if x == s[0] {
        assert x !in s[1..] by {
          forall i | 0 <= i < |s[1..]| ensures s[1..][i] != x {
            assert s[1..][i] == s[i + 1];
          }
        }
      }
    }
  }

  /** A sequence in which no value occurs twice is duplicate-free. */
  lemma MultiplicidadeDistintos<T>(s: seq<T>)
    requires forall x :: multiset(s)[x] <= 1
    ensures Distintos(s)
  {
    forall i, j | 0 <= i < j < |s| ensures s[i] != s[j] {
      assert s == s[..i] + [s[i]] + s[i + 1..];
      assert multiset(s) == multiset(s[..i]) + multiset{s[i]} + multiset(s[i + 1..]);
      assert multiset(s)[s[i]] <= 1;
      assert multiset(s)[s[i]] == multiset(s[..i])[s[i]] + 1 + multiset(s[i + 1..])[s[i]];
      assert multiset(s[i + 1..])[s[i]] == 0;
      assert s[i + 1..][j - i - 1] == s[j];
    }
  }

  /** A sequence whose elements all come, with multiplicity, from a
      duplicate-free sequence is itself duplicate-free. */
  lemma DistintosSubmultiset<T>(r: seq<T>, s: seq<T>)
    requires multiset(r) <= multiset(s)
    requires Distintos(s)
    ensures Distintos(r)
  {
    forall x ensures multiset(r)[x] <= 1 {
      DistintosMultiplicidade(s, x);
      assert multiset(r)[x] <= multiset(s)[x];
    }
    MultiplicidadeDistintos(r);
  }

  /** `r` is `s` with some elements deleted and the others kept in order. */
  predicate Subsequencia<T(==)>(r: seq<T>, s: seq<T>)
    decreases |s|
  {
    if s == [] then r == []
    else (r != [] && r[0] == s[0] && Subsequencia(r[1..], s[1..])) || Subsequencia(r, s[1..])
  }

  lemma {:induction false} SubsequenciaReflexiva<T>(s: seq<T>)
    ensures Subsequencia(s, s)
    decreases |s|
  {
    if s != [] {
      SubsequenciaReflexiva(s[1..]);
    }
  }

  lemma {:induction false} SubsequenciaTransitiva<T>(a: seq<T>, b: seq<T>, c: seq<T>)
    requires Subsequencia(a, b) && Subsequencia(b, c)
    ensures Subsequencia(a, c)
    decreases |c|
  {
    if c == [] {
    } else if Subsequencia(b, c[1..]) {
      SubsequenciaTransitiva(a, b, c[1..]);
    } else {
      assert b != [] && b[0] == c[0] && Subsequencia(b[1..], c[1..]);
      if a != [] && a[0] == b[0] && Subsequencia(a[1..], b[1..]) {
        SubsequenciaTransitiva(a[1..], b[1..], c[1..]);
      } else {
        SubsequenciaTransitiva(a, b[1..], c[1..]);
      }
    }
  }

  /** A subsequence takes each value at most as often as the whole sequence holds it. */
  lemma {:induction false} SubsequenciaSubmultiset<T>(r: seq<T>, s: seq<T>)
    requires Subsequencia(r, s)
    ensures multiset(r) <= multiset(s)
    decreases |s|
  {
    if s != [] {
      assert s == [s[0]] + s[1..];
      if r != [] && r[0] == s[0] && Subsequencia(r[1..], s[1..]) {
        SubsequenciaSubmultiset(r[1..], s[1..]);
        assert r == [r[0]] + r[1..];
      } else {
        SubsequenciaSubmultiset(r, s[1..]);
      }
    }
  }

  /** Deleting one position keeps a duplicate-free sequence duplicate-free. */
  lemma DistintosSemPosicao<T>(s: seq<T>, k: int)
    requires 0 <= k < |s|
    requires Distintos(s)
    ensures Distintos(s[..k] + s[k + 1..])
  {
    assert s == s[..k] + [s[k]] + s[k + 1..];
    assert multiset(s) == multiset(s[..k]) + multiset{s[k]} + multiset(s[k + 1..]);
    DistintosSubmultiset(s[..k] + s[k + 1..], s);
  }
}
