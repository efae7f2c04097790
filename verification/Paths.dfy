/** File names built from identifiers (storage/fs.go:92-98): distinct objects get distinct paths. */
module Paths {
  import opened Identifiers

  const CONFIG_NAME := ".secure-store.json"

  function RootBucket(root: string, bucket: string): string {
    root + "/" + bucket
  }

  function RootKey(root: string, bucket: string, key: string): string {
    RootBucket(root, bucket) + "/" + key
  }

  /** Everything before the last slash. */
  function Parent(path: string): string {
    if path == "" then ""
    else if path[|path| - 1] == '/' then path[..|path| - 1]
    else Parent(path[..|path| - 1])
  }

  predicate Below(dir: string, path: string) {
    dir + "/" <= path
  }

  lemma {:induction false} ParentOf(dir: string, name: string)
    requires '/' !in name
    ensures Parent(dir + "/" + name) == dir
    decreases |name|
  {
    var path := dir + "/" + name;
    if name == "" {
      assert path[..|path| - 1] == dir;
    } else {
      assert path[..|path| - 1] == dir + "/" + name[..|name| - 1];
      ParentOf(dir, name[..|name| - 1]);
    }
  }

  lemma IdsHaveNoSlash(s: string)
    requires IsId(s)
    ensures '/' !in s && '.' !in s && s != ""
  {
    IdAlphabet(s);
  }

  lemma SameTail(head: string, a: string, b: string)
    requires head + a == head + b
    ensures a == b
  {
    assert a == (head + a)[|head|..];
    assert b == (head + b)[|head|..];
  }

  /** Distinct bucket identifiers have distinct directories. */
  lemma BucketPathsDiffer(root: string, b: string, c: string)
    requires RootBucket(root, b) == RootBucket(root, c)
    ensures b == c
  {
    assert RootBucket(root, b) == (root + "/") + b && RootBucket(root, c) == (root + "/") + c;
    SameTail(root + "/", b, c);
  }

  /** Distinct accepted pairs have distinct files; no file path is a bucket path, and neither is the config file's. */
  lemma KeyPathsDiffer(root: string, b: string, k: string, c: string, l: string)
    requires IsId(b) && IsId(k) && IsId(c) && IsId(l)
    ensures RootKey(root, b, k) == RootKey(root, c, l) ==> b == c && k == l
    ensures RootKey(root, b, k) != RootBucket(root, c)
    ensures RootBucket(root, b) != RootBucket(root, CONFIG_NAME)
    ensures RootKey(root, b, k) != RootBucket(root, CONFIG_NAME)
  {
    IdsHaveNoSlash(b);
    IdsHaveNoSlash(k);
    IdsHaveNoSlash(c);
    IdsHaveNoSlash(l);
    ParentOf(RootBucket(root, b), k);
    ParentOf(RootBucket(root, c), l);
    ParentOf(root, c);
    ParentOf(root, CONFIG_NAME);
    assert |RootBucket(root, b)| > |root|;
    if RootKey(root, b, k) == RootKey(root, c, l) {
      BucketPathsDiffer(root, b, c);
      SameTail(RootBucket(root, b) + "/", k, l);
    }
    if RootBucket(root, b) == RootBucket(root, CONFIG_NAME) {
      BucketPathsDiffer(root, b, CONFIG_NAME);
    }
  }

  /** A file below another bucket's directory betrays a slash in one of the names. */
  lemma SlashBetrayed(root: string, b: string, c: string, l: string)
    requires Below(RootBucket(root, b), RootKey(root, c, l))
    ensures b == c || '/' in b || '/' in c
  {
    var path, at := RootKey(root, c, l), |root| + 1;
    assert path[at + |b|] == '/' && path[at..at + |b|] == b;
    assert path[at..at + |c|] == c && path[at + |c|] == '/';
    if |b| < |c| {
      assert c[|b|] == path[at..at + |c|][|b|] == '/';
    } else if |c| < |b| {
      assert b[|c|] == path[at..at + |b|][|c|] == '/';
    }
  }

  lemma SlashInBucket(root: string, b: string, c: string)
    requires Below(RootBucket(root, b), RootBucket(root, c))
    ensures '/' in c
  {
    assert RootBucket(root, c)[|root| + 1 + |b|] == '/';
    assert RootBucket(root, c)[|root| + 1..] == c;
    assert c[|b|] == '/';
  }

  /** Below a bucket's directory there are the files of that bucket and no bucket directory. */
  lemma BelowBucket(root: string, b: string, c: string, l: string)
    requires IsId(b) && IsId(c) && IsId(l)
    ensures Below(RootBucket(root, b), RootKey(root, c, l)) <==> b == c
    ensures !Below(RootBucket(root, b), RootBucket(root, c))
    ensures !Below(RootBucket(root, b), root) && RootBucket(root, b) != root
  {
    IdsHaveNoSlash(b);
    IdsHaveNoSlash(c);
    if Below(RootBucket(root, b), RootKey(root, c, l)) {
      SlashBetrayed(root, b, c, l);
    }
    if Below(RootBucket(root, b), RootBucket(root, c)) {
      SlashInBucket(root, b, c);
      assert false;
    }
  }

  /** The paths written out. */
  lemma PathsWrittenOut()
    ensures RootBucket("/data", "photos") == "/data/photos"
    ensures RootKey("/data", "photos", "one") == "/data/photos/one"
    ensures RootBucket("/data", CONFIG_NAME) == "/data/.secure-store.json"
  {
  }
}
