/** Candidate selection and ordering in upload_model_to_oss
    (dabi/util/tasks.py): filtering a directory listing by name prefix and
    extension, and Python's `list.sort()` on file names. */
module Listing {

  /** One entry of `os.listdir`, with whether `os.path.isfile` holds for it. */
  datatype DirEntry = DirEntry(name: string, isFile: bool)

  predicate StartsWith(s: string, prefix: string) {
    |prefix| <= |s| && s[..|prefix|] == prefix
  }

  predicate EndsWith(s: string, suffix: string) {
    |suffix| <= |s| && s[|s| - |suffix|..] == suffix
  }

  /** The two comprehensions: model files need the output name as prefix and
      the model extension as suffix; sample images only the prefix. */
  datatype Filter = ModelFilter(prefix: string, extension: string) | SampleFilter(prefix: string)

  predicate Accepts(f: Filter, e: DirEntry) {
    match f
    case ModelFilter(p, x) => e.isFile && StartsWith(e.name, p) && EndsWith(e.name, x)
    case SampleFilter(p) => e.isFile && StartsWith(e.name, p)
  }

  /** The names of the entries `f` accepts, in listing order. */
  function Select(listing: seq<DirEntry>, f: Filter): (r: seq<string>)
    ensures |r| <= |listing|
    ensures forall x :: x in r <==> exists e :: e in listing && e.name == x && Accepts(f, e)
    decreases |listing|
  {
    if |listing| == 0 then []
    else
      var rest := Select(listing[1..], f);
      assert forall e :: e in listing[1..] ==> e in listing;
      assert forall e :: e in listing ==> e == listing[0] || e in listing[1..];
      if Accepts(f, listing[0]) then [listing[0].name] + rest else rest
  }

  /** The number of entries `f` accepts, counted independently of Select. */
  function CountAccepted(listing: seq<DirEntry>, f: Filter): nat
    decreases |listing|
  {
    if |listing| == 0 then 0
    else (if Accepts(f, listing[0]) then 1 else 0) + CountAccepted(listing[1..], f)
  }

  /** The candidate count compared with the epoch count is the number of
      accepted entries. */
  lemma {:induction false} SelectCounts(listing: seq<DirEntry>, f: Filter)
    ensures |Select(listing, f)| == CountAccepted(listing, f)
    decreases |listing|
  {
    if |listing| > 0 {
      SelectCounts(listing[1..], f);
    }
  }

  /** Python's string order: code point by code point, a proper prefix first. */
  predicate LexLe(a: string, b: string)
    decreases |a|
  {
    |a| == 0 || (|b| > 0 && (a[0] < b[0] || (a[0] == b[0] && LexLe(a[1..], b[1..]))))
  }

  lemma {:induction false} LexTotal(a: string, b: string)
    ensures LexLe(a, b) || LexLe(b, a)
    decreases |a|
  {
    if |a| > 0 && |b| > 0 && a[0] == b[0] {
      LexTotal(a[1..], b[1..]);
    }
  }

  lemma {:induction false} LexTransitive(a: string, b: string, c: string)
    requires LexLe(a, b) && LexLe(b, c)
    ensures LexLe(a, c)
    decreases |a|
  {
    if |a| > 0 && a[0] == b[0] && b[0] == c[0] {
      LexTransitive(a[1..], b[1..], c[1..]);
    }
  }

  lemma {:induction false} LexAntisymmetric(a: string, b: string)
    requires LexLe(a, b) && LexLe(b, a)
    ensures a == b
    decreases |a|
  {
    if |a| > 0 {
      LexAntisymmetric(a[1..], b[1..]);
      assert a == [a[0]] + a[1..];
      assert b == [b[0]] + b[1..];
    }
  }

  predicate Sorted(s: seq<string>) {
    forall i, j :: 0 <= i < j < |s| ==> LexLe(s[i], s[j])
  }

  /** Places `x` into the sorted sequence `s`. */
  function Insert(x: string, s: seq<string>): (r: seq<string>)
    requires Sorted(s)
    ensures Sorted(r)
    ensures multiset(r) == multiset(s) + multiset{x}
    decreases |s|
  {
    if |s| == 0 then [x]
    else if LexLe(x, s[0]) then
      assert forall j :: 0 < j < |s| ==> LexLe(s[0], s[j]);
      forall j | 0 < j < |s|
        ensures LexLe(x, s[j])
      {
        LexTransitive(x, s[0], s[j]);
      }
      assert s == [s[0]] + s[1..];
      [x] + s
    else
      LexTotal(x, s[0]);
      var tail := Insert(x, s[1..]);
      assert s == [s[0]] + s[1..];
      forall y | y in tail
        ensures LexLe(s[0], y)
      {
        assert y in multiset(tail);
        if y != x {
          assert y in multiset(s[1..]);
          var j :| 0 <= j < |s[1..]| && s[1..][j] == y;
          assert s[j + 1] == y;
        }
      }
      [s[0]] + tail
  }

  /** `model_files.sort()` / `sample_images.sort()`. */
  function Sort(s: seq<string>): (r: seq<string>)
    ensures Sorted(r)
    ensures multiset(r) == multiset(s)
    decreases |s|
  {
    if |s| == 0 then []
    else
      assert s == [s[0]] + s[1..];
      Insert(s[0], Sort(s[1..]))
  }

  /** Two sorted arrangements of the same names start with the same name. */
  lemma SortedHeadsAgree(a: seq<string>, b: seq<string>)
    requires Sorted(a) && Sorted(b)
    requires multiset(a) == multiset(b)
    requires |a| > 0
    ensures |b| > 0 && a[0] == b[0]
  {
    assert a[0] in multiset(b);
    var j :| 0 <= j < |b| && b[j] == a[0];
    assert b[0] in multiset(a);
    var i :| 0 <= i < |a| && a[i] == b[0];
    assert LexLe(a[0], a[i]) by {
      if i > 0 {
        assert LexLe(a[0], a[i]);
      } else {
        LexTotal(a[0], a[0]);
      }
    }
    assert LexLe(b[0], b[j]) by {
      if j > 0 {
        assert LexLe(b[0], b[j]);
      } else {
        LexTotal(b[0], b[0]);
      }
    }
    LexAntisymmetric(a[0], b[0]);
  }

  /** Removing the first name of a sequence removes one occurrence of it. */
  lemma DropHead(a: seq<string>)
    requires |a| > 0
    ensures multiset(a[1..]) == multiset(a) - multiset{a[0]}
  {
    assert a == [a[0]] + a[1..];
  }

  /** Only one arrangement of a multiset of names is sorted, so the upload
      order is fully determined by the set of candidates. */
  lemma {:induction false} SortedUnique(a: seq<string>, b: seq<string>)
    requires Sorted(a) && Sorted(b)
    requires multiset(a) == multiset(b)
    ensures a == b
    decreases |a|
  {
    if |a| == 0 {
      assert |b| == |multiset(b)| == 0;
    } else {
      SortedHeadsAgree(a, b);
      DropHead(a);
      DropHead(b);
      SortedUnique(a[1..], b[1..]);
      assert a == [a[0]] + a[1..];
      assert b == [b[0]] + b[1..];
    }
  }

  /** Sort returns the sorted permutation of its input and nothing else. */
  lemma SortCharacterized(s: seq<string>, t: seq<string>)
    requires Sorted(t) && multiset(t) == multiset(s)
    ensures Sort(s) == t
  {
    SortedUnique(Sort(s), t);
  }

  /** Upload order for `b`, `a`, `c` is `a`, `b`, `c`. */
  lemma SortExample()
    ensures Sort(["b.safetensors", "a.safetensors", "c.safetensors"])
         == ["a.safetensors", "b.safetensors", "c.safetensors"]
  {
    var t := ["a.safetensors", "b.safetensors", "c.safetensors"];
    assert LexLe(t[0], t[1]) && LexLe(t[1], t[2]) && LexLe(t[0], t[2]);
    assert Sorted(t);
    SortCharacterized(["b.safetensors", "a.safetensors", "c.safetensors"], t);
  }
}
