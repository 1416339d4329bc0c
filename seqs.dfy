/** Facts about sequence displays and concatenation. They are stated apart so that
    the proofs that use them need not rediscover them in a context full of the
    model's recursive functions. */
module Seqs {
  lemma Units<T>(s: seq<T>)
    ensures [] + s == s && s + [] == s
  {
  }

  lemma Chain<T>(a: seq<T>, b: seq<T>, c: seq<T>, x: seq<T>, y: seq<T>)
    requires x == a + b && y == x + c
    ensures y == a + (b + c)
  {
  }

  lemma Regroup<T>(a: seq<T>, b: seq<T>, c: seq<T>, x: seq<T>, y: seq<T>)
    requires x == a + b && y == a + (b + c)
    ensures y == x + c
  {
  }

  lemma MoveLast<T>(out: seq<T>, rest: seq<T>, whole: seq<T>, x: T)
    requires whole == rest + [x]
    ensures multiset(out + [x]) + multiset(rest) == multiset(out) + multiset(whole)
  {
  }

  lemma Strip<T>(x: T, a: seq<T>, n: T, b: seq<T>, y: T)
    ensures var g := [x] + a + [n] + b + [y]; |g| > 2 && g[1..|g| - 1] == a + [n] + b
  {
    var g := [x] + a + [n] + b + [y];
    assert g == [x] + (a + [n] + b) + [y];
  }

  lemma Count<T>(s: seq<T>, x: T)
    ensures multiset(s + [x]) == multiset(s) + multiset{x}
  {
  }

  lemma Split<T>(s: seq<T>)
    requires s != []
    ensures s == s[..|s| - 1] + [s[|s| - 1]]
  {
  }

  lemma Uncons<T>(s: seq<T>)
    requires s != []
    ensures [s[0]] + s[1..] == s
  {
  }

  lemma Single<T>(front: seq<T>, s: seq<T>)
    requires |s| == 1
    ensures front + [s[0]] == front + s
  {
    assert s == [s[0]];
  }

  lemma Behead<T>(c: T, b: seq<T>)
    ensures ([c] + b)[0] == c && ([c] + b)[1..] == b
  {
  }

  lemma Unroll<T>(s: seq<T>, rest: seq<T>, front: seq<T>)
    requires s != []
    ensures (s + rest)[0] == s[0] && (s + rest)[1..] == s[1..] + rest
    ensures front + [s[0]] + s[1..] == front + s
  {
    assert [s[0]] + s[1..] == s;
  }

  lemma Pair<T>(x: T, y: T)
    ensures [x] + [y] == [x, y]
    ensures [x, y] == [x] + ([y] + [])
    ensures [x, y][..1] == [x] && [x][..0] == [] && [x, y][..0] == []
  {
  }

  lemma Triple<T>(x: T, y: T, z: T)
    ensures [x, y] + [z] == [x, y, z] && [x] + [y, z] == [x, y, z]
    ensures [x, y][..1] + [z] == [x, z]
    ensures [x, y, z] == [x] + ([y] + ([z] + []))
  {
  }

  lemma Quad<T>(x: T, y: T, z: T, w: T)
    ensures [x, y, z] + [w] == [x, y, z, w]
    ensures [x, y, z, w] == [x] + ([y] + ([z] + ([w] + [])))
    ensures [x, y, z, w] == [x, y, z] + [w]
    ensures [x] + [y, z, w] == [x, y, z, w]
  {
  }

  lemma Snoc<T>(s: seq<T>, x: T, y: T)
    ensures s + [x] + [y] == s + [x, y]
  {
  }

  lemma Five<T>(p: T, q: T, r: T, s: T, t: T)
    ensures [p, q, r, s, t] == [p, q, r] + [s, t]
    ensures [p, q, r, s, t] == [p, q, r] + ([s] + [t])
    ensures [p, q, r, s] + [t] == [p, q, r, s, t]
    ensures [p, q, r, s, t] == [p] + ([q] + ([r] + ([s] + ([t] + []))))
  {
  }

  lemma Seven<T>(p: T, q: T, r: T, s: T, t: T, u: T, v: T)
    ensures [p, q, r, s, t, u, v] == [p, q, r, s] + ([t] + [u, v])
  {
  }

  lemma Eight<T>(p: T, q: T, r: T, s: T, t: T, u: T, v: T, w: T)
    ensures [p, q, r, s, t, u, v, w] == [p, q, r, s] + ([t] + [u, v, w])
  {
  }
}
