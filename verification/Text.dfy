/** The order `std::string` puts on timestamps: byte by byte, a proper prefix first. */
module Text {
  datatype Option<+T> = None | Some(value: T)

  predicate Less(a: string, b: string) {
    b != [] && (a == [] || a[0] < b[0] || (a[0] == b[0] && Less(a[1..], b[1..])))
  }

  predicate Le(a: string, b: string) {
    !Less(b, a)
  }

  /** `if (x > max) max = x` */
  function Max(max: string, x: string): string {
    if Less(max, x) then x else max
  }

  lemma {:induction false} LeRefl(a: string)
    ensures Le(a, a)
  {
    if a != [] {
      LeRefl(a[1..]);
    }
  }

  lemma {:induction false} LeTrans(a: string, b: string, c: string)
    requires Le(a, b) && Le(b, c)
    ensures Le(a, c)
  {
    if a != [] && b != [] && c != [] && a[0] == b[0] == c[0] {
      LeTrans(a[1..], b[1..], c[1..]);
    }
  }

  lemma {:induction false} LeTotal(a: string, b: string)
    ensures Le(a, b) || Le(b, a)
    ensures Le(a, b) && Le(b, a) ==> a == b
  {
    if a != [] && b != [] {
      LeTotal(a[1..], b[1..]);
      if Le(a, b) && Le(b, a) {
        assert a == [a[0]] + a[1..] && b == [b[0]] + b[1..];
      }
    }
  }

  lemma LeLess(a: string, b: string, c: string)
    requires Le(a, b) && Less(b, c)
    ensures Less(a, c)
  {
    if Le(c, a) {
      LeTrans(c, a, b);
    }
  }

  lemma {:induction false} LessAppend(a: string, more: string)
    requires more != []
    ensures Less(a, a + more)
  {
    if a != [] {
      LessAppend(a[1..], more);
      assert (a + more)[1..] == a[1..] + more;
    }
  }

  lemma MaxBounds(a: string, b: string)
    ensures Le(a, Max(a, b)) && Le(b, Max(a, b))
    ensures Max(a, b) == a || Max(a, b) == b
  {
    LeRefl(a);
    LeRefl(b);
    LeTotal(a, b);
  }

  /** Among strings of one length, a longer right-hand side only breaks a tie. */
  lemma {:induction false} LessExtended(a: string, b: string, more: string)
    requires |a| == |b| && more != []
    ensures Less(a, b + more) <==> Less(a, b) || a == b
  {
    if a != [] {
      LessExtended(a[1..], b[1..], more);
      assert (b + more)[1..] == b[1..] + more;
      assert a == [a[0]] + a[1..] && b == [b[0]] + b[1..];
    }
  }

  lemma {:induction false} LessSamePrefix(p: string, a: string, b: string)
    ensures Less(p + a, p + b) <==> Less(a, b)
  {
    if p == [] {
      assert p + a == a && p + b == b;
    } else {
      LessSamePrefix(p[1..], a, b);
      assert (p + a)[1..] == p[1..] + a && (p + b)[1..] == p[1..] + b;
    }
  }

  /** Two strings of one length, each with a last character, compare front first. */
  lemma {:induction false} LessLast(a: string, b: string, x: char, y: char)
    requires |a| == |b|
    ensures Less(a + [x], b + [y]) <==> Less(a, b) || (a == b && x < y)
  {
    if a != [] {
      LessLast(a[1..], b[1..], x, y);
      assert (a + [x])[1..] == a[1..] + [x] && (b + [y])[1..] == b[1..] + [y];
      assert a == [a[0]] + a[1..] && b == [b[0]] + b[1..];
    }
  }
}
