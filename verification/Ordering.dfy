/** The order of strings by code points, as the sorts of the stores compare them. */
module Ordering {
  predicate StringLess(a: string, b: string) {
    b != "" && (a == "" || a[0] < b[0] || (a[0] == b[0] && StringLess(a[1..], b[1..])))
  }

  lemma {:induction false} StringOrder(a: string, b: string, c: string)
    ensures !StringLess(a, a)
    ensures !StringLess(a, b) && !StringLess(b, a) ==> a == b
    ensures StringLess(a, b) ==> !StringLess(b, a)
    ensures StringLess(a, b) && StringLess(b, c) ==> StringLess(a, c)
    decreases |a| + |b| + |c|
  {
    if a != [] || b != [] || c != [] {
      var a', b', c' := (if a == [] then a else a[1..]), (if b == [] then b else b[1..]), (if c == [] then c else c[1..]);
      StringOrder(a', b', c');
      assert a != [] ==> a == [a[0]] + a[1..];
      assert b != [] ==> b == [b[0]] + b[1..];
    }
  }

  /** The first difference decides; a proper prefix comes first. */
  lemma {:induction false} FirstDifference(front: string, a: char, b: char, x: string, y: string)
    ensures StringLess(front, front + [a] + x)
    ensures a < b ==> StringLess(front + [a] + x, front + [b] + y)
  {
    var s, t := front + [a] + x, front + [b] + y;
    if front != "" {
      assert s[1..] == front[1..] + [a] + x && t[1..] == front[1..] + [b] + y;
      FirstDifference(front[1..], a, b, x, y);
    }
  }
}
