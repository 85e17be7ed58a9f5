/** The label bookkeeping of train_text_classifier.py: the distinct training
    genres in sorted order, numbered densely from 0, with the inverse
    numbering, and the capped sample selection. Dataset loading and the
    seeded shuffle happen before these steps; the shuffled split is an
    input here. */
module LabelMapping {
  import opened Results

  const MaxTrainSamples: nat := 60000
  const MaxEvalSamples: nat := 8000
  const MaxTestSamples: nat := 8000

  /** Python's `<` on strings: code point by code point, and a proper
      prefix comes first. */
  predicate Less(a: string, b: string)
    decreases |a|
  {
    if |a| == 0 then |b| > 0
    else if |b| == 0 then false
    else if a[0] != b[0] then a[0] < b[0]
    else Less(a[1..], b[1..])
  }

  lemma {:induction false} LessIrreflexive(a: string)
    ensures !Less(a, a)
    decreases |a|
  {
    if |a| > 0 {
      LessIrreflexive(a[1..]);
    }
  }

  lemma {:induction false} LessTransitive(a: string, b: string, c: string)
    requires Less(a, b) && Less(b, c)
    ensures Less(a, c)
    decreases |a|
  {
    if |a| > 0 && a[0] == b[0] && b[0] == c[0] {
      LessTransitive(a[1..], b[1..], c[1..]);
    }
  }

  /** Any two different strings are ordered one way. */
  lemma {:induction false} LessTotal(a: string, b: string)
    requires a != b
    ensures Less(a, b) || Less(b, a)
    decreases |a|
  {
    if |a| > 0 && |b| > 0 && a[0] == b[0] {
      assert a == [a[0]] + a[1..] && b == [b[0]] + b[1..];
      LessTotal(a[1..], b[1..]);
    }
  }

  lemma {:induction false} LessAsymmetric(a: string, b: string)
    requires Less(a, b)
    ensures !Less(b, a)
  {
    if Less(b, a) {
      LessTransitive(a, b, a);
      LessIrreflexive(a);
    }
  }

  /** Strictly increasing, hence without duplicates. */
  predicate Sorted(s: seq<string>) {
    forall i, j :: 0 <= i < j < |s| ==> Less(s[i], s[j])
  }

  /** Adds one label to a sorted list of distinct labels. */
  function Insert(s: seq<string>, x: string): (r: seq<string>)
    requires Sorted(s)
    ensures Sorted(r)
    ensures forall y :: y in r <==> y in s || y == x
    decreases |s|
  {
    if |s| == 0 then [x]
    else if s[0] == x then s
    else if Less(x, s[0]) then
      assert forall j :: 0 < j < |s| ==> Less(x, s[j]) by {
        forall j | 0 < j < |s| ensures Less(x, s[j]) { LessTransitive(x, s[0], s[j]); }
      }
      [x] + s
    else
      var rest := Insert(s[1..], x);
      LessTotal(x, s[0]);
      assert forall y :: y in rest ==> Less(s[0], y) by {
        forall y | y in rest ensures Less(s[0], y) {
          if y != x {
            var j :| 0 <= j < |s[1..]| && s[1..][j] == y;
            assert s[j + 1] == y;
          }
        }
      }
      [s[0]] + rest
  }

  /** `sorted(list(set(labels)))`. */
  function Genres(labels: seq<string>): (genres: seq<string>)
    ensures Sorted(genres)
    ensures forall g :: g in genres <==> g in labels
  {
    if |labels| == 0 then []
    else
      var front := labels[..|labels| - 1];
      assert labels == front + [labels[|labels| - 1]];
      Insert(Genres(front), labels[|labels| - 1])
  }

  /** The tail of a sorted list is the list without its least element. */
  lemma Tail(a: seq<string>)
    requires Sorted(a) && |a| > 0
    ensures forall y :: y in a[1..] <==> y in a && y != a[0]
  {
    forall y | y in a[1..]
      ensures y != a[0]
    {
      var k :| 0 <= k < |a[1..]| && a[1..][k] == y;
      assert Less(a[0], a[k + 1]);
      LessIrreflexive(y);
    }
    assert a == [a[0]] + a[1..];
  }

  /** There is only one sorted list of a given set of labels, so `Genres`
      is the sorted set whatever order the labels came in. */
  lemma {:induction false} SortedUnique(a: seq<string>, b: seq<string>)
    requires Sorted(a) && Sorted(b)
    requires forall y :: y in a <==> y in b
    ensures a == b
    decreases |a|
  {
    SameElementsNonEmpty(a, b);
    if |a| > 0 {
      assert a[0] in b;
      var j :| 0 <= j < |b| && b[j] == a[0];
      assert b[0] in a;
      var i :| 0 <= i < |a| && a[i] == b[0];
      if j > 0 {
        assert Less(b[0], a[0]);
        if i > 0 {
          assert Less(a[0], b[0]);
          LessAsymmetric(a[0], b[0]);
        } else {
          LessIrreflexive(a[0]);
        }
      }
      Tail(a);
      Tail(b);
      SortedUnique(a[1..], b[1..]);
      assert a == [a[0]] + a[1..] && b == [b[0]] + b[1..];
    }
  }

  lemma SameElementsNonEmpty(a: seq<string>, b: seq<string>)
    requires forall y :: y in a <==> y in b
    ensures |b| > 0 ==> |a| > 0
  {
    if |b| > 0 {
      assert b[0] in b;
    }
  }

  /** The same labels in any order or multiplicity give the same genres. */
  lemma GenresDependOnlyOnSet(l1: seq<string>, l2: seq<string>)
    requires forall y :: y in l1 <==> y in l2
    ensures Genres(l1) == Genres(l2)
  {
    SortedUnique(Genres(l1), Genres(l2));
  }

  /** `{g: i for i, g in enumerate(genres, base)}` for sorted, distinct
      genres. */
  function Number(genres: seq<string>, base: nat): (m: map<string, nat>)
    requires Sorted(genres)
    ensures forall g :: g in m <==> g in genres
    ensures |m| == |genres|
    ensures forall k :: 0 <= k < |genres| ==> m[genres[k]] == base + k
    decreases |genres|
  {
    if |genres| == 0 then map[]
    else
      Tail(genres);
      Number(genres[1..], base + 1)[genres[0] := base]
  }

  /** Every numbered genre sits at its number. */
  lemma NumberedAt(genres: seq<string>, g: string)
    requires Sorted(genres) && g in genres
    ensures Number(genres, 0)[g] < |genres| && genres[Number(genres, 0)[g]] == g
  {
    var k :| 0 <= k < |genres| && genres[k] == g;
  }

  /** Different genres get different ids, and the ids follow the order. */
  lemma NumberOrdered(genres: seq<string>)
    requires Sorted(genres)
    ensures var m := Number(genres, 0);
      forall g, h :: g in m && h in m && Less(g, h) ==> m[g] < m[h]
    ensures Injective(Number(genres, 0))
  {
    var m := Number(genres, 0);
    forall g, h | g in m && h in m && Less(g, h)
      ensures m[g] < m[h]
    {
      NumberedAt(genres, g);
      NumberedAt(genres, h);
      if m[h] < m[g] {
        LessAsymmetric(g, h);
      } else if m[h] == m[g] {
        LessIrreflexive(g);
      }
    }
    forall g, h | g in m && h in m && m[g] == m[h]
      ensures g == h
    {
      NumberedAt(genres, g);
      NumberedAt(genres, h);
    }
  }

  predicate Injective(m: map<string, nat>) {
    forall g, h :: g in m && h in m && m[g] == m[h] ==> g == h
  }

  /** `{i: g for g, i in label2id.items()}` for a map whose ids differ. */
  function Invert(m: map<string, nat>): (inv: map<nat, string>)
    requires Injective(m)
    ensures forall g :: g in m ==> m[g] in inv && inv[m[g]] == g
    ensures forall i :: i in inv ==> inv[i] in m && m[inv[i]] == i
  {
    map g | g in m :: m[g] := g
  }

  /** The ids are exactly `0..n-1`. */
  lemma InverseIsDense(genres: seq<string>)
    requires Sorted(genres)
    ensures Injective(Number(genres, 0))
    ensures forall i: nat :: i in Invert(Number(genres, 0)) <==> i < |genres|
  {
    var m := Number(genres, 0);
    NumberOrdered(genres);
    var inv := Invert(m);
    forall i: nat | i < |genres| ensures i in inv {
      var g := genres[i];
      assert g in m && m[g] == i;
    }
    forall i: nat | i in inv ensures i < |genres| {
      var g := inv[i];
      assert g in m && m[g] == i;
      NumberedAt(genres, g);
    }
  }

  /** `prepare_label_mapping`: `label2id` numbers the sorted genres by
      position, and `id2label` turns every pair of it around. */
  function PrepareLabelMapping(labels: seq<string>): (r: (map<string, nat>, map<nat, string>))
    ensures forall g :: g in r.0 <==> g in labels
    ensures |r.0| == |Genres(labels)|
    ensures forall i: nat :: i in r.1 <==> i < |r.0|
    ensures forall g :: g in r.0 ==> r.0[g] in r.1 && r.1[r.0[g]] == g
    ensures forall i :: i in r.1 ==> r.1[i] in r.0 && r.0[r.1[i]] == i
    ensures forall g, h :: g in r.0 && h in r.0 && Less(g, h) ==> r.0[g] < r.0[h]
  {
    var genres := Genres(labels);
    NumberOrdered(genres);
    InverseIsDense(genres);
    (Number(genres, 0), Invert(Number(genres, 0)))
  }

  /** `num_labels = len(label2id)`: one label per distinct genre. */
  function NumLabels(labels: seq<string>): (n: nat)
    ensures n == |Genres(labels)|
    ensures forall i :: 0 <= i < n ==> i in PrepareLabelMapping(labels).1
  {
    |PrepareLabelMapping(labels).0|
  }

  /** `[label2id[g] for g in examples["genre"]]`: a genre outside the
      mapping is a `KeyError`. */
  function EncodeLabels(label2id: map<string, nat>, genres: seq<string>): (r: Result<seq<nat>, string>)
    ensures r.Success? <==> forall k :: 0 <= k < |genres| ==> genres[k] in label2id
    ensures r.Success? ==> |r.value| == |genres|
    ensures r.Success? ==> forall k :: 0 <= k < |genres| ==> r.value[k] == label2id[genres[k]]
    ensures r.Failure? ==> r.error in genres && r.error !in label2id
  {
    if |genres| == 0 then Success([])
    else if genres[0] !in label2id then Failure(genres[0])
    else
      match EncodeLabels(label2id, genres[1..])
      case Failure(e) => Failure(e)
      case Success(ids) => Success([label2id[genres[0]]] + ids)
  }

  /** Every training label is encoded, and `id2label` gives it back. */
  lemma EncodeDecode(labels: seq<string>, label2id: map<string, nat>, id2label: map<nat, string>)
    requires (label2id, id2label) == PrepareLabelMapping(labels)
    ensures EncodeLabels(label2id, labels).Success?
    ensures forall k :: 0 <= k < |labels| ==>
      EncodeLabels(label2id, labels).value[k] in id2label &&
      id2label[EncodeLabels(label2id, labels).value[k]] == labels[k]
  {
    assert forall k :: 0 <= k < |labels| ==> labels[k] in label2id;
    assert forall g :: g in label2id ==> label2id[g] in id2label && id2label[label2id[g]] == g;
  }

  /** `dataset.select(range(min(cap, len(dataset))))`: the first `cap`
      samples, or all of them when there are fewer. */
  function SelectSamples<T>(samples: seq<T>, cap: nat): (r: seq<T>)
    ensures |r| == if cap < |samples| then cap else |samples|
    ensures r == samples[..|r|]
  {
    samples[..if cap < |samples| then cap else |samples|]
  }

  /** Capping twice is capping once; a split under the cap is kept whole. */
  lemma SelectIdempotent<T>(samples: seq<T>, cap: nat)
    ensures SelectSamples(SelectSamples(samples, cap), cap) == SelectSamples(samples, cap)
    ensures |samples| <= cap ==> SelectSamples(samples, cap) == samples
  {
  }

  /** The three splits the script uses stay within their caps. */
  lemma SplitsWithinCaps<T>(train: seq<T>, eval: seq<T>, test: seq<T>)
    ensures |SelectSamples(train, MaxTrainSamples)| <= 60000
    ensures |SelectSamples(eval, MaxEvalSamples)| <= 8000
    ensures |SelectSamples(test, MaxTestSamples)| <= 8000
  {
  }
}
