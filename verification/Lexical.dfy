/** Python's order on sequences: element by element, a proper prefix first. */
module Lexical {
  ghost predicate StrictTotal<T(!new)>(lt: (T, T) -> bool) {
    && (forall x, y :: lt(x, y) ==> !lt(y, x))
    && (forall x, y, z :: lt(x, y) && lt(y, z) ==> lt(x, z))
    && (forall x, y :: lt(x, y) || x == y || lt(y, x))
  }

  predicate Lex<T(==)>(lt: (T, T) -> bool, a: seq<T>, b: seq<T>) {
    b != [] && (a == [] || lt(a[0], b[0]) || (a[0] == b[0] && Lex(lt, a[1..], b[1..])))
  }

  /** `a` and `b` agree on their first k elements, and there `a` ends or has the smaller element. */
  predicate PartsAt<T(==)>(lt: (T, T) -> bool, a: seq<T>, b: seq<T>, k: nat) {
    k <= |a| && k < |b| && a[..k] == b[..k] && (k == |a| || lt(a[k], b[k]))
  }

  lemma {:induction false} LexMeaning<T(!new)>(lt: (T, T) -> bool, a: seq<T>, b: seq<T>)
    ensures Lex(lt, a, b) <==> exists k :: PartsAt(lt, a, b, k)
  {
    if a == [] || b == [] {
      assert b != [] ==> PartsAt(lt, a, b, 0);
    } else {
      LexMeaning(lt, a[1..], b[1..]);
      assert a == [a[0]] + a[1..] && b == [b[0]] + b[1..];
      if lt(a[0], b[0]) {
        assert PartsAt(lt, a, b, 0);
      } else if Lex(lt, a, b) {
        var k: nat :| PartsAt(lt, a[1..], b[1..], k);
        assert a[..k + 1] == [a[0]] + a[1..][..k] && b[..k + 1] == [b[0]] + b[1..][..k];
        assert PartsAt(lt, a, b, k + 1);
      }
      if k: nat :| k > 0 && PartsAt(lt, a, b, k) {
        assert a[..k][0] == b[..k][0];
        assert a[1..][..k - 1] == a[..k][1..] && b[1..][..k - 1] == b[..k][1..];
        assert PartsAt(lt, a[1..], b[1..], k - 1);
      }
    }
  }

  lemma {:induction false} LexTrichotomy<T(!new)>(lt: (T, T) -> bool, a: seq<T>, b: seq<T>)
    requires StrictTotal(lt)
    ensures Lex(lt, a, b) || a == b || Lex(lt, b, a)
  {
    if a != [] && b != [] && a[0] == b[0] {
      LexTrichotomy(lt, a[1..], b[1..]);
      assert a == [a[0]] + a[1..] && b == [b[0]] + b[1..];
    }
  }

  lemma {:induction false} LexAsymmetric<T(!new)>(lt: (T, T) -> bool, a: seq<T>, b: seq<T>)
    requires StrictTotal(lt) && Lex(lt, a, b)
    ensures !Lex(lt, b, a) && a != b
  {
    if a != [] && a[0] == b[0] {
      LexAsymmetric(lt, a[1..], b[1..]);
    }
  }

  lemma {:induction false} LexTransitive<T(!new)>(lt: (T, T) -> bool, a: seq<T>, b: seq<T>, c: seq<T>)
    requires StrictTotal(lt) && Lex(lt, a, b) && Lex(lt, b, c)
    ensures Lex(lt, a, c)
  {
    if a != [] && a[0] == b[0] && b[0] == c[0] {
      LexTransitive(lt, a[1..], b[1..], c[1..]);
    }
  }

  // ----- Strings, by code point -----

  predicate Lower(x: char, y: char) {
    x < y
  }

  predicate Below(a: string, b: string) {
    Lex(Lower, a, b)
  }

  lemma BelowTrichotomy(a: string, b: string)
    ensures Below(a, b) || a == b || Below(b, a)
  {
    LexTrichotomy(Lower, a, b);
  }

  lemma BelowAsymmetric(a: string, b: string)
    requires Below(a, b)
    ensures !Below(b, a) && a != b
  {
    LexAsymmetric(Lower, a, b);
  }

  lemma BelowTransitive(a: string, b: string, c: string)
    requires Below(a, b) && Below(b, c)
    ensures Below(a, c)
  {
    LexTransitive(Lower, a, b, c);
  }
}
