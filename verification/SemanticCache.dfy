/** The similarity cache (`cosine_similarity` and `SemanticCache` in `cache.rs`).

  Embedding components, norms and similarities are exact reals; `sqrt` stands for the square root. */
module SemanticCache {
  import opened Numbers
  import opened Options

  type Vector = seq<real>

  // --- Cosine similarity -------------------------------------------------------------------

  ghost predicate IsSqrt(sqrt: real -> real) {
    forall x: real | x >= 0.0 :: sqrt(x) >= 0.0 && sqrt(x) * sqrt(x) == x
  }

  function Dot(a: Vector, b: Vector): real
    requires |a| == |b|
  {
    if a == [] then 0.0 else Dot(a[..|a| - 1], b[..|b| - 1]) + a[|a| - 1] * b[|b| - 1]
  }

  function Ratio(dot: real, normA: real, normB: real): real {
    if normA == 0.0 || normB == 0.0 then 0.0
    else
      assert normA * normB != 0.0;
      dot / (normA * normB)
  }

  function Cosine(sqrt: real -> real, a: Vector, b: Vector): real {
    if |a| != |b| || a == [] then 0.0
    else Ratio(Dot(a, b), sqrt(Dot(a, a)), sqrt(Dot(b, b)))
  }

  lemma Square(x: real)
    ensures x * x >= 0.0
  {
  }

  lemma Product(x: real, y: real)
    requires x >= 0.0 && y >= 0.0
    ensures x * y >= 0.0
  {
  }

  lemma PositiveProduct(x: real, y: real)
    requires x > 0.0 && y > 0.0
    ensures x * y > 0.0
  {
  }

  lemma OtherFactor(x: real, y: real)
    requires x > 0.0 && x * y >= 0.0
    ensures y >= 0.0
  {
    if y < 0.0 {
      PositiveProduct(x, -y);
    }
  }

  lemma DifferenceOfSquares(x: real, y: real)
    ensures (x - y) * (x + y) == x * x - y * y
  {
  }

  lemma NegatedFactors(x: real, y: real)
    ensures (-x) * (-y) == x * y
  {
  }

  lemma ZeroProduct(x: real, y: real)
    requires x == y && x * y <= 0.0
    ensures x == 0.0
  {
    var u, v := -x, -y;
    NegatedFactors(x, y);
    assert u * v <= 0.0;
    if u > 0.0 {
      PositiveProduct(u, v);
    } else if x > 0.0 {
      PositiveProduct(x, y);
    }
  }

  lemma ZeroSquare(x: real)
    requires x * x <= 0.0
    ensures x == 0.0
  {
    ZeroProduct(x, x);
  }

  lemma Quotient(x: real, y: real)
    requires y > 0.0
    ensures (x / y) * y == x
  {
  }

  lemma {:induction false} DotIsSymmetric(a: Vector, b: Vector)
    requires |a| == |b|
    ensures Dot(a, b) == Dot(b, a)
  {
    if a != [] {
      DotIsSymmetric(a[..|a| - 1], b[..|b| - 1]);
    }
  }

  lemma {:induction false} SquaredNormIsSigned(a: Vector)
    ensures Dot(a, a) >= 0.0
  {
    if a != [] {
      SquaredNormIsSigned(a[..|a| - 1]);
      Square(a[|a| - 1]);
    }
  }

  lemma CompleteSquare(d: real, p: real, q: real, x: real, y: real)
    ensures var s := p * y - d * x;
            p * (p * (y * y) + q * (x * x) - 2.0 * (d * (x * y))) == s * s + (p * q - d * d) * (x * x)
  {
    var py, dx := p * y, d * x;
    assert (py - dx) * (py - dx) == py * py - 2.0 * (py * dx) + dx * dx;
    assert py * py == p * (p * (y * y)) && py * dx == p * (d * (x * y)) && dx * dx == (d * d) * (x * x);
    assert (p * q - d * d) * (x * x) == p * (q * (x * x)) - (d * d) * (x * x);
  }

  /** The step of Cauchy-Schwarz: the mixed term is at most the sum of the outer ones. */
  lemma MixedTerm(d: real, p: real, q: real, x: real, y: real)
    requires d * d <= p * q && p >= 0.0 && q >= 0.0
    ensures 2.0 * (d * (x * y)) <= p * (y * y) + q * (x * x)
  {
    var gap := p * (y * y) + q * (x * x) - 2.0 * (d * (x * y));
    if p == 0.0 {
      ZeroSquare(d);
      Square(x);
      Product(q, x * x);
    } else {
      var s := p * y - d * x;
      CompleteSquare(d, p, q, x, y);
      Square(s);
      Square(x);
      Product(p * q - d * d, x * x);
      OtherFactor(p, gap);
    }
  }

  lemma {:induction false} CauchySchwarz(a: Vector, b: Vector)
    requires |a| == |b|
    ensures Dot(a, b) * Dot(a, b) <= Dot(a, a) * Dot(b, b)
  {
    if a != [] {
      var a', b', x, y := a[..|a| - 1], b[..|b| - 1], a[|a| - 1], b[|b| - 1];
      var d, p, q := Dot(a', b'), Dot(a', a'), Dot(b', b');
      CauchySchwarz(a', b');
      SquaredNormIsSigned(a');
      SquaredNormIsSigned(b');
      MixedTerm(d, p, q, x, y);
      ExpandSquares(d, p, q, x, y);
    }
  }

  lemma ExpandSquares(d: real, p: real, q: real, x: real, y: real)
    ensures (d + x * y) * (d + x * y) == d * d + 2.0 * (d * (x * y)) + (x * x) * (y * y)
    ensures (p + x * x) * (q + y * y) == p * q + p * (y * y) + q * (x * x) + (x * x) * (y * y)
  {
  }

  lemma SquareRootOrder(x: real, y: real)
    requires x >= 0.0 && y >= 0.0 && x * x <= y * y
    ensures x <= y
  {
    if x > y {
      DifferenceOfSquares(x, y);
      PositiveProduct(x - y, x + y);
    }
  }

  lemma RatioBounds(m: real, n: real, d: real)
    requires m >= 0.0 && n >= 0.0 && d * d <= (m * m) * (n * n)
    ensures -1.0 <= Ratio(d, m, n) <= 1.0
    ensures Ratio(d, m, n) == Ratio(d, n, m)
    ensures m > 0.0 && n > 0.0 && d == m * n ==> Ratio(d, m, n) == 1.0
    ensures Ratio(d, 0.0, n) == 0.0
  {
    if m > 0.0 && n > 0.0 {
      var mn := m * n;
      PositiveProduct(m, n);
      assert (m * m) * (n * n) == mn * mn;
      assert (-d) * (-d) == d * d;
      SquareRootOrder(if d >= 0.0 then d else -d, mn);
      QuotientBounds(d, mn);
    }
  }

  lemma QuotientBounds(d: real, mn: real)
    requires mn > 0.0 && -mn <= d <= mn
    ensures -1.0 <= d / mn <= 1.0
    ensures d == mn ==> d / mn == 1.0
  {
    var q := d / mn;
    Quotient(d, mn);
    if q > 1.0 {
      PositiveProduct(q - 1.0, mn);
    }
    if q < -1.0 {
      PositiveProduct(-1.0 - q, mn);
    }
  }

  lemma NormOf(sqrt: real -> real, a: Vector)
    requires IsSqrt(sqrt)
    ensures var n := sqrt(Dot(a, a)); n >= 0.0 && n * n == Dot(a, a) && (n == 0.0 <==> Dot(a, a) == 0.0)
  {
    SquaredNormIsSigned(a);
    if Dot(a, a) == 0.0 {
      ZeroSquare(sqrt(Dot(a, a)));
    }
  }

  /** Similarities are symmetric and between -1 and 1; vectors of different lengths and zero vectors are similar
    to nothing. */
  lemma CosineBounds(sqrt: real -> real, a: Vector, b: Vector)
    requires IsSqrt(sqrt)
    ensures -1.0 <= Cosine(sqrt, a, b) <= 1.0
    ensures Cosine(sqrt, a, b) == Cosine(sqrt, b, a)
    ensures |a| != |b| || Dot(a, a) == 0.0 ==> Cosine(sqrt, a, b) == 0.0
  {
    hide Ratio, IsSqrt, Dot;
    NormOf(sqrt, a);
    NormOf(sqrt, b);
    if |a| == |b| {
      DotIsSymmetric(a, b);
      CauchySchwarz(a, b);
      RatioBounds(sqrt(Dot(a, a)), sqrt(Dot(b, b)), Dot(a, b));
    }
  }

  lemma RatioTimesNorms(d: real, m: real, n: real)
    requires m >= 0.0 && n >= 0.0 && d * d <= (m * m) * (n * n)
    ensures Ratio(d, m, n) * (m * n) == d
  {
    if m == 0.0 || n == 0.0 {
      assert (m * m) * (n * n) == 0.0;
      ZeroSquare(d);
    } else {
      PositiveProduct(m, n);
      Quotient(d, m * n);
    }
  }

  function Unit(n: nat, i: nat): Vector {
    seq(n, k => if k == i then 1.0 else 0.0)
  }

  function Plus(a: Vector, b: Vector): Vector
    requires |a| == |b|
  {
    seq(|a|, k requires 0 <= k < |a| => a[k] + b[k])
  }

  function Times(x: real, a: Vector): Vector {
    seq(|a|, k requires 0 <= k < |a| => x * a[k])
  }

  lemma {:induction false} DotWithZero(a: Vector, b: Vector)
    requires |a| == |b| && forall k | 0 <= k < |a| :: a[k] == 0.0
    ensures Dot(a, b) == 0.0
  {
    if a != [] {
      DotWithZero(a[..|a| - 1], b[..|b| - 1]);
    }
  }

  lemma {:induction false} DotPicksComponent(n: nat, i: nat, b: Vector)
    requires i < n == |b|
    ensures Dot(Unit(n, i), b) == b[i]
  {
    var u := Unit(n, i);
    if i == n - 1 {
      DotWithZero(u[..n - 1], b[..n - 1]);
    } else {
      assert u[..n - 1] == Unit(n - 1, i);
      DotPicksComponent(n - 1, i, b[..n - 1]);
    }
  }

  lemma Distributes(x: real, y: real, z: real)
    ensures (x + y) * z == x * z + y * z
  {
  }

  lemma Associates(x: real, y: real, z: real)
    ensures (x * y) * z == x * (y * z)
  {
  }

  lemma {:induction false} DotAdds(a: Vector, b: Vector, c: Vector)
    requires |a| == |b| == |c|
    ensures Dot(Plus(a, b), c) == Dot(a, c) + Dot(b, c)
  {
    if a != [] {
      var n := |a| - 1;
      assert Plus(a, b)[..n] == Plus(a[..n], b[..n]);
      DotAdds(a[..n], b[..n], c[..n]);
      Distributes(a[n], b[n], c[n]);
    }
  }

  lemma {:induction false} DotScales(x: real, a: Vector, b: Vector)
    requires |a| == |b|
    ensures Dot(Times(x, a), b) == x * Dot(a, b)
  {
    if a != [] {
      var n := |a| - 1;
      assert Times(x, a)[..n] == Times(x, a[..n]) by {
        assert forall k | 0 <= k < n :: Times(x, a)[..n][k] == x * a[k] == Times(x, a[..n])[k];
      }
      DotScales(x, a[..n], b[..n]);
      Associates(x, a[n], b[n]);
      Distributes(Dot(a[..n], b[..n]), a[n] * b[n], x);
    }
  }

  /** The dot product is the one bilinear form that picks out components. */
  lemma DotIsDotProduct(a: Vector, b: Vector, c: Vector, x: real, i: nat)
    requires |a| == |b| == |c| && i < |a|
    ensures Dot(Unit(|a|, i), c) == c[i] && Dot(a, c) == Dot(c, a)
    ensures Dot(Plus(a, b), c) == Dot(a, c) + Dot(b, c) && Dot(Times(x, a), c) == x * Dot(a, c)
  {
    DotPicksComponent(|a|, i, c);
    DotIsSymmetric(a, c);
    DotAdds(a, b, c);
    DotScales(x, a, c);
  }

  /** The similarity is what turns the product of the norms into the dot product. */
  lemma CosineIsNormalizedDot(sqrt: real -> real, a: Vector, b: Vector)
    requires IsSqrt(sqrt) && |a| == |b|
    ensures Cosine(sqrt, a, b) * (sqrt(Dot(a, a)) * sqrt(Dot(b, b))) == Dot(a, b)
  {
    hide Ratio, IsSqrt;
    NormOf(sqrt, a);
    NormOf(sqrt, b);
    CauchySchwarz(a, b);
    RatioTimesNorms(Dot(a, b), sqrt(Dot(a, a)), sqrt(Dot(b, b)));
  }

  /** A vector is fully similar to itself. */
  lemma CosineOfSelf(sqrt: real -> real, a: Vector)
    requires IsSqrt(sqrt) && Dot(a, a) != 0.0
    ensures Cosine(sqrt, a, a) == 1.0
  {
    hide Ratio, IsSqrt;
    NormOf(sqrt, a);
    var n := sqrt(Dot(a, a));
    RatioBounds(n, n, Dot(a, a));
  }

  // --- The cache ------------------------------------------------------------------------------

  datatype Entry<V> = Entry(scopeKey: int, embedding: Vector, response: V, insertedAt: int)

  datatype Config = Config(ttl: nat, maxEntries: nat, threshold: real, sqrt: real -> real) {
    function Capacity(): (n: nat)
      ensures n >= 1
    {
      AtLeastOne(maxEntries)
    }
  }

  /** `elapsed` is zero for an instant that is not in the past. */
  predicate Expired(c: Config, e: Entry, now: int) {
    now - e.insertedAt > c.ttl
  }

  /** `retain`: the unexpired entries, in order. */
  function Unexpired<V>(c: Config, es: seq<Entry<V>>, now: int): (r: seq<Entry<V>>)
    ensures |r| <= |es|
  {
    if es == [] then []
    else (if Expired(c, es[0], now) then [] else [es[0]]) + Unexpired(c, es[1..], now)
  }

  function Similarity(c: Config, e: Entry, query: Vector): real {
    Cosine(c.sqrt, e.embedding, query)
  }

  /** The two filters of a lookup. */
  predicate Qualifies(c: Config, e: Entry, scopeKey: int, query: Vector) {
    e.scopeKey == scopeKey && Similarity(c, e, query) >= c.threshold
  }

  /** `max_by` returns the last of several greatest elements. */
  function Best<V>(c: Config, es: seq<Entry<V>>, scopeKey: int, query: Vector): Option<Entry<V>> {
    if es == [] then None
    else
      var best, e := Best(c, es[..|es| - 1], scopeKey, query), es[|es| - 1];
      if !Qualifies(c, e, scopeKey, query) then best
      else if best.Some? && Similarity(c, best.value, query) > Similarity(c, e, query) then best
      else Some(e)
  }

  lemma NoEntries<V>(c: Config, es: seq<Entry<V>>, scopeKey: int, query: Vector, now: int)
    requires es == []
    ensures Unexpired(c, es, now) == [] && Best(c, es, scopeKey, query) == None
  {
  }

  lemma UnexpiredStep<V>(c: Config, es: seq<Entry<V>>, i: nat, now: int)
    requires i < |es|
    ensures Unexpired(c, es[i..], now)
            == (if Expired(c, es[i], now) then [] else [es[i]]) + Unexpired(c, es[i + 1..], now)
  {
    assert es[i..][1..] == es[i + 1..];
  }

  lemma BestStep<V>(c: Config, es: seq<Entry<V>>, i: nat, scopeKey: int, query: Vector)
    requires i < |es|
    ensures var best, similarity := Best(c, es[..i], scopeKey, query), Cosine(c.sqrt, es[i].embedding, query);
            && Similarity(c, es[i], query) == similarity
            && Best(c, es[..i + 1], scopeKey, query)
               == if es[i].scopeKey == scopeKey && similarity >= c.threshold
                     && (best.None? || Similarity(c, best.value, query) <= similarity)
                  then Some(es[i]) else best
  {
    assert es[..i + 1][..i] == es[..i];
  }

  function Response<V>(best: Option<Entry<V>>): Option<V> {
    if best.Some? then Some(best.value.response) else None
  }

  function Pushed<V>(c: Config, es: seq<Entry<V>>, e: Entry<V>): seq<Entry<V>> {
    var longer := es + [e];
    if |longer| > c.Capacity() then longer[1..] else longer
  }

  class Cache<V(!new)> {
    const config: Config
    var entries: seq<Entry<V>>

    constructor (config: Config)
      ensures this.config == config && entries == []
    {
      this.config := config;
      entries := [];
    }

    /** `retain`, then the filters and `max_by`. */
    method Get(scopeKey: int, query: Vector, now: int) returns (response: Option<V>)
      modifies this
      ensures entries == Unexpired(config, old(entries), now)
      ensures response == Response(Best(config, entries, scopeKey, query))
      ensures forall e :: e in entries <==> e in old(entries) && now - e.insertedAt <= config.ttl
      ensures IsLatestBest(config, entries, scopeKey, query, Best(config, entries, scopeKey, query))
      ensures Answers(config, old(entries), scopeKey, query, now, response)
    {
      hide Unexpired, Best, Qualifies, Similarity;
      NoEntries(config, entries[..0], scopeKey, query, now);
      var kept: seq<Entry<V>> := [];
      for i := 0 to |entries|
        invariant entries == old(entries)
        invariant Unexpired(config, entries, now) == kept + Unexpired(config, entries[i..], now)
      {
        UnexpiredStep(config, entries, i, now);
        if !Expired(config, entries[i], now) {
          kept := kept + [entries[i]];
        }
      }
      entries := kept;
      var best: Option<(real, Entry<V>)> := None;
      for i := 0 to |entries|
        invariant entries == kept
        invariant best.Some? ==> best.value.0 == Similarity(config, best.value.1, query)
        invariant Best(config, entries[..i], scopeKey, query) == if best.Some? then Some(best.value.1) else None
      {
        var e := entries[i];
        BestStep(config, entries, i, scopeKey, query);
        if e.scopeKey == scopeKey {
          var similarity := Cosine(config.sqrt, e.embedding, query);
          if similarity >= config.threshold && (best.None? || best.value.0 <= similarity) {
            best := Some((similarity, e));
          }
        }
      }
      assert entries[..|entries|] == entries;
      BestIsLatestBest(config, entries, scopeKey, query);
      UnexpiredIff(config, old(entries), now);
      LookupAnswers(config, old(entries), scopeKey, query, now);
      response := if best.Some? then Some(best.value.1.response) else None;
    }

    method Insert(scopeKey: int, embedding: Vector, response: V, now: int)
      modifies this
      ensures entries == Pushed(config, old(entries), Entry(scopeKey, embedding, response, now))
    {
      entries := entries + [Entry(scopeKey, embedding, response, now)];
      if |entries| > config.Capacity() {
        entries := entries[1..];
      }
    }
  }

  /** Entry `i` qualifies, no qualifying entry is more similar, and no later one is as similar. */
  ghost predicate LatestBestAt<V>(c: Config, es: seq<Entry<V>>, scopeKey: int, query: Vector, i: nat)
    requires i < |es|
  {
    && Qualifies(c, es[i], scopeKey, query)
    && forall j | 0 <= j < |es| && Qualifies(c, es[j], scopeKey, query) ::
        && Similarity(c, es[j], query) <= Similarity(c, es[i], query)
        && (j > i ==> Similarity(c, es[j], query) < Similarity(c, es[i], query))
  }

  /** What the answer to a lookup means; there is none only when nothing qualifies. */
  ghost predicate IsLatestBest<V>(c: Config, es: seq<Entry<V>>, scopeKey: int, query: Vector, best: Option<Entry<V>>) {
    if best.None? then forall i | 0 <= i < |es| :: !Qualifies(c, es[i], scopeKey, query)
    else exists i: nat | i < |es| :: es[i] == best.value && LatestBestAt(c, es, scopeKey, query, i)
  }

  lemma {:induction false} BestIsLatestBest<V>(c: Config, es: seq<Entry<V>>, scopeKey: int, query: Vector)
    ensures IsLatestBest(c, es, scopeKey, query, Best(c, es, scopeKey, query))
  {
    hide Qualifies, Similarity;
    if es != [] {
      var n := |es| - 1;
      var rest, e, best := es[..n], es[n], Best(c, es[..n], scopeKey, query);
      BestIsLatestBest(c, rest, scopeKey, query);
      if !Qualifies(c, e, scopeKey, query)
         || (best.Some? && Similarity(c, best.value, query) > Similarity(c, e, query)) {
        if best.Some? {
          var i: nat :| i < n && rest[i] == best.value && LatestBestAt(c, rest, scopeKey, query, i);
          assert LatestBestAt(c, es, scopeKey, query, i);
        }
      } else {
        assert LatestBestAt(c, es, scopeKey, query, n);
      }
    }
  }

  /** An entry that may answer: young enough, of the scope, similar enough. */
  ghost predicate MayAnswer<V>(c: Config, e: Entry<V>, scopeKey: int, query: Vector, now: int) {
    && now - e.insertedAt <= c.ttl
    && e.scopeKey == scopeKey
    && Cosine(c.sqrt, e.embedding, query) >= c.threshold
  }

  /** Of all entries that may answer, `i` is the most similar, and the latest of these. */
  ghost predicate AnswersAt<V>(c: Config, es: seq<Entry<V>>, scopeKey: int, query: Vector, now: int, i: nat)
    requires i < |es|
  {
    && MayAnswer(c, es[i], scopeKey, query, now)
    && forall j | 0 <= j < |es| && MayAnswer(c, es[j], scopeKey, query, now) ::
        var other, best := Cosine(c.sqrt, es[j].embedding, query), Cosine(c.sqrt, es[i].embedding, query);
        if j > i then other < best else other <= best
  }

  /** The answer that a list of entries, expired ones included, has to give. */
  ghost predicate Answers<V>(c: Config, es: seq<Entry<V>>, scopeKey: int, query: Vector, now: int,
                             response: Option<V>)
  {
    if response.None? then forall i | 0 <= i < |es| :: !MayAnswer(c, es[i], scopeKey, query, now)
    else exists i: nat | i < |es| :: es[i].response == response.value && AnswersAt(c, es, scopeKey, query, now, i)
  }

  /** The sweep keeps exactly the entries that are at most the TTL old. */
  lemma {:induction false} UnexpiredIff<V>(c: Config, es: seq<Entry<V>>, now: int)
    ensures forall e :: e in Unexpired(c, es, now) <==> e in es && now - e.insertedAt <= c.ttl
  {
    if es != [] {
      UnexpiredIff(c, es[1..], now);
      assert es == [es[0]] + es[1..];
    }
  }

  lemma UnexpiredLast<V>(c: Config, es: seq<Entry<V>>, now: int)
    requires es != []
    ensures var n := |es| - 1;
            Unexpired(c, es, now)
            == Unexpired(c, es[..n], now) + if now - es[n].insertedAt <= c.ttl then [es[n]] else []
  {
    var n := |es| - 1;
    UnexpiredConcat(c, es[..n], [es[n]], now);
    assert es == es[..n] + [es[n]];
    assert [es[n]][1..] == [];
  }

  /** The chosen entry answers; `i` is where it stands in the list, expired entries included. */
  lemma {:induction false} BestAnswers<V>(c: Config, es: seq<Entry<V>>, scopeKey: int, query: Vector, now: int)
    returns (i: nat)
    ensures var best := Best(c, Unexpired(c, es, now), scopeKey, query);
            if best.None? then forall j | 0 <= j < |es| :: !MayAnswer(c, es[j], scopeKey, query, now)
            else i < |es| && es[i] == best.value && AnswersAt(c, es, scopeKey, query, now, i)
  {
    hide Unexpired, Cosine;
    i := 0;
    if es == [] {
      NoEntries(c, es, scopeKey, query, now);
    } else {
      var n := |es| - 1;
      var kept := Unexpired(c, es, now);
      var before := Unexpired(c, es[..n], now);
      UnexpiredLast(c, es, now);
      i := BestAnswers(c, es[..n], scopeKey, query, now);
      if now - es[n].insertedAt <= c.ttl {
        assert kept[..|kept| - 1] == before && kept[|kept| - 1] == es[n];
        if MayAnswer(c, es[n], scopeKey, query, now) && Best(c, kept, scopeKey, query) == Some(es[n])
           && (Best(c, before, scopeKey, query).None?
               || Cosine(c.sqrt, es[i].embedding, query) <= Cosine(c.sqrt, es[n].embedding, query)) {
          i := n;
        }
      } else {
        assert kept == before;
      }
    }
  }

  lemma LookupAnswers<V>(c: Config, es: seq<Entry<V>>, scopeKey: int, query: Vector, now: int)
    ensures Answers(c, es, scopeKey, query, now, Response(Best(c, Unexpired(c, es, now), scopeKey, query)))
  {
    var i := BestAnswers(c, es, scopeKey, query, now);
  }

  // --- Runs against a plain log ---------------------------------------------------------------------

  datatype Op<V> = Get(scopeKey: int, query: Vector, now: int) | Insert(entry: Entry<V>) {
    function Time(): int {
      if Get? then now else entry.insertedAt
    }
  }

  function Applied<V>(c: Config, es: seq<Entry<V>>, op: Op<V>): seq<Entry<V>> {
    match op
    case Get(_, _, now) => Unexpired(c, es, now)
    case Insert(e) => Pushed(c, es, e)
  }

  /** The entries of a new cache after a run. */
  function After<V>(c: Config, ops: seq<Op<V>>): seq<Entry<V>> {
    if ops == [] then [] else Applied(c, After(c, ops[..|ops| - 1]), ops[|ops| - 1])
  }

  /** Everything ever inserted. */
  function Log<V>(ops: seq<Op<V>>): seq<Entry<V>> {
    if ops == [] then []
    else Log(ops[..|ops| - 1]) + if ops[|ops| - 1].Insert? then [ops[|ops| - 1].entry] else []
  }

  function Last<V>(n: nat, es: seq<Entry<V>>): seq<Entry<V>> {
    if |es| <= n then es else es[|es| - n..]
  }

  /** A monotone clock, last read at `now` or before. */
  ghost predicate Timely<V>(ops: seq<Op<V>>, now: int) {
    && (forall i | 0 <= i < |ops| :: ops[i].Time() <= now)
    && (forall i, j | 0 <= i < j < |ops| :: ops[i].Time() <= ops[j].Time())
  }

  ghost predicate InTimeOrder<V>(es: seq<Entry<V>>, now: int) {
    && (forall i | 0 <= i < |es| :: es[i].insertedAt <= now)
    && (forall i, j | 0 <= i < j < |es| :: es[i].insertedAt <= es[j].insertedAt)
  }

  lemma {:induction false} LogIsInTimeOrder<V>(ops: seq<Op<V>>, now: int)
    requires Timely(ops, now)
    ensures InTimeOrder(Log(ops), now)
  {
    if ops != [] {
      LogIsInTimeOrder(ops[..|ops| - 1], ops[|ops| - 1].Time());
    }
  }

  lemma {:induction false} UnexpiredConcat<V>(c: Config, a: seq<Entry<V>>, b: seq<Entry<V>>, now: int)
    ensures Unexpired(c, a + b, now) == Unexpired(c, a, now) + Unexpired(c, b, now)
  {
    if a == [] {
      assert a + b == b;
    } else {
      assert (a + b)[1..] == a[1..] + b;
      UnexpiredConcat(c, a[1..], b, now);
    }
  }

  lemma {:induction false} NoneExpired<V>(c: Config, es: seq<Entry<V>>, now: int)
    requires forall i | 0 <= i < |es| :: !Expired(c, es[i], now)
    ensures Unexpired(c, es, now) == es
  {
    if es != [] {
      NoneExpired(c, es[1..], now);
    }
  }

  lemma TailIsInTimeOrder<V>(es: seq<Entry<V>>, now: int)
    requires es != [] && InTimeOrder(es, now)
    ensures InTimeOrder(es[1..], now)
  {
  }

  lemma NoneExpiredLater<V>(c: Config, es: seq<Entry<V>>, now: int)
    requires es != [] && InTimeOrder(es, now) && !Expired(c, es[0], now)
    ensures forall i | 0 <= i < |es| :: !Expired(c, es[i], now)
  {
  }

  /** With entries in time order the expired ones come first. */
  lemma {:induction false} ExpiredComeFirst<V>(c: Config, es: seq<Entry<V>>, now: int) returns (n: nat)
    requires InTimeOrder(es, now)
    ensures n <= |es| && Unexpired(c, es, now) == es[n..]
    ensures forall i | 0 <= i < n :: Expired(c, es[i], now)
  {
    hide InTimeOrder, Expired;
    if es == [] {
      n := 0;
    } else if Expired(c, es[0], now) {
      TailIsInTimeOrder(es, now);
      var k := ExpiredComeFirst(c, es[1..], now);
      n := k + 1;
      assert es[1..][k..] == es[n..];
    } else {
      n := 0;
      NoneExpiredLater(c, es, now);
      NoneExpired(c, es, now);
    }
  }

  /** The deque lacks only expired entries of the last `capacity` inserts: those come before it in the log. */
  ghost predicate Tracks<V>(c: Config, es: seq<Entry<V>>, log: seq<Entry<V>>, gap: seq<Entry<V>>, now: int) {
    && Last(c.Capacity(), log) == gap + es
    && forall i | 0 <= i < |gap| :: Expired(c, gap[i], now)
  }

  lemma LastOfPushed<V>(n: nat, log: seq<Entry<V>>, e: Entry<V>)
    requires n >= 1
    ensures var window := Last(n, log);
            Last(n, log + [e]) == if |window| == n then window[1..] + [e] else window + [e]
  {
  }

  lemma InsertTracks<V>(c: Config, es: seq<Entry<V>>, log: seq<Entry<V>>, gap: seq<Entry<V>>, e: Entry<V>, now: int)
    returns (gap': seq<Entry<V>>)
    requires Tracks(c, es, log, gap, now) && now <= e.insertedAt
    ensures Tracks(c, Pushed(c, es, e), log + [e], gap', e.insertedAt)
  {
    var n, window := c.Capacity(), Last(c.Capacity(), log);
    LastOfPushed(n, log, e);
    if gap == [] {
      gap' := [];
      assert window == es;
      assert |es| == n ==> (es + [e])[1..] == es[1..] + [e];
    } else if |window| == n {
      gap' := gap[1..];
      assert (gap + es)[1..] + [e] == gap' + (es + [e]);
    } else {
      gap' := gap;
      assert (gap + es) + [e] == gap + (es + [e]);
    }
  }

  lemma SubOrder<V>(log: seq<Entry<V>>, n: nat, gap: seq<Entry<V>>, es: seq<Entry<V>>, now: int)
    requires InTimeOrder(log, now) && Last(n, log) == gap + es
    ensures InTimeOrder(es, now)
  {
    var start := |log| - |es|;
    assert forall i | 0 <= i < |es| :: es[i] == (gap + es)[|gap| + i] == log[start + i];
  }

  lemma GetTracks<V>(c: Config, es: seq<Entry<V>>, log: seq<Entry<V>>, gap: seq<Entry<V>>, since: int, now: int)
    returns (gap': seq<Entry<V>>)
    requires Tracks(c, es, log, gap, since) && since <= now && InTimeOrder(log, now)
    ensures Tracks(c, Unexpired(c, es, now), log, gap', now)
  {
    hide InTimeOrder, Last;
    SubOrder(log, c.Capacity(), gap, es, now);
    var n := ExpiredComeFirst(c, es, now);
    gap' := gap + es[..n];
    assert es == es[..n] + es[n..];
    assert gap + es == gap' + es[n..];
    forall i | 0 <= i < |gap'|
      ensures Expired(c, gap'[i], now)
    {
      if i < |gap| {
        assert gap'[i] == gap[i];
      } else {
        assert gap'[i] == es[i - |gap|];
      }
    }
  }

  lemma {:induction false} DequeTracksLog<V>(c: Config, ops: seq<Op<V>>, now: int) returns (gap: seq<Entry<V>>)
    requires Timely(ops, now)
    ensures Tracks(c, After(c, ops), Log(ops), gap, now)
  {
    if ops == [] {
      gap := [];
    } else {
      var rest, op := ops[..|ops| - 1], ops[|ops| - 1];
      var since := if rest == [] then op.Time() else rest[|rest| - 1].Time();
      gap := DequeTracksLog(c, rest, since);
      match op
      case Insert(e) =>
        gap := InsertTracks(c, After(c, rest), Log(rest), gap, e, since);
      case Get(_, _, time) =>
        LogIsInTimeOrder(rest, time);
        gap := GetTracks(c, After(c, rest), Log(rest), gap, since, time);
        assert Log(ops) == Log(rest);
    }
  }

  lemma {:induction false} AllExpired<V>(c: Config, es: seq<Entry<V>>, now: int)
    requires forall i | 0 <= i < |es| :: Expired(c, es[i], now)
    ensures Unexpired(c, es, now) == []
  {
    if es != [] {
      AllExpired(c, es[1..], now);
    }
  }

  /** The deque is always the end of the log, at most `capacity` long. */
  lemma DequeIsEndOfLog<V>(c: Config, ops: seq<Op<V>>, now: int)
    requires Timely(ops, now)
    ensures var es, log := After(c, ops), Log(ops);
            |es| <= c.Capacity() && |es| <= |log| && es == log[|log| - |es|..]
  {
    var gap := DequeTracksLog(c, ops, now);
    var window := Last(c.Capacity(), Log(ops));
    assert After(c, ops) == window[|gap|..];
  }

  /** Main result: under a monotone clock, a lookup at the end of any run answers from those of the last `capacity`
    inserts that are at most the TTL old, as if no entry had ever been swept or evicted. */
  lemma LookupSeesLog<V>(c: Config, ops: seq<Op<V>>, scopeKey: int, query: Vector, now: int)
    requires Timely(ops, now)
    ensures var window, swept := Last(c.Capacity(), Log(ops)), Unexpired(c, After(c, ops), now);
            && swept == Unexpired(c, window, now)
            && (forall e :: e in swept <==> e in window && now - e.insertedAt <= c.ttl)
            && IsLatestBest(c, swept, scopeKey, query, Best(c, swept, scopeKey, query))
            && Answers(c, window, scopeKey, query, now, Response(Best(c, swept, scopeKey, query)))
  {
    var gap := DequeTracksLog(c, ops, now);
    AllExpired(c, gap, now);
    UnexpiredConcat(c, gap, After(c, ops), now);
    UnexpiredIff(c, Last(c.Capacity(), Log(ops)), now);
    BestIsLatestBest(c, Unexpired(c, After(c, ops), now), scopeKey, query);
    LookupAnswers(c, Last(c.Capacity(), Log(ops)), scopeKey, query, now);
  }
}
