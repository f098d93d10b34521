/**
 Container image references and the retag rule shared by both scripts:
 `image.split(':')[0]` keeps the text before the first colon, and the new
 image is that text, a colon, and the new tag.
 */
module ImageRef {

  const Colon: char := ':'

  /** Number of occurrences of `sep` in `s`. */
  function Occurrences(s: string, sep: char): (r: nat)
    ensures r <= |s|
  {
    if s == [] then 0
    else (if s[0] == sep then 1 else 0) + Occurrences(s[1..], sep)
  }

  /**
   Python's `s.split(sep)` for a one-character separator: the maximal pieces
   between separators, always at least one (the empty string splits into [""]).
   */
  function Split(s: string, sep: char): (parts: seq<string>)
    ensures |parts| == Occurrences(s, sep) + 1
    ensures forall i :: 0 <= i < |parts| ==> sep !in parts[i]
    ensures parts[0] <= s
    ensures |parts[0]| == |s| || s[|parts[0]|] == sep
    decreases |s|
  {
    if s == [] then [[]]
    else
      var rest := Split(s[1..], sep);
      if s[0] == sep then [[]] + rest
      else [[s[0]] + rest[0]] + rest[1..]
  }

  /** Python's `sep.join(parts)`. */
  function Join(parts: seq<string>, sep: char): (r: string)
  {
    if |parts| == 0 then []
    else if |parts| == 1 then parts[0]
    else parts[0] + [sep] + Join(parts[1..], sep)
  }

  /** Joining the pieces of a split gives back the original string. */
  lemma {:induction false} JoinSplit(s: string, sep: char)
    ensures Join(Split(s, sep), sep) == s
    decreases |s|
  {
    if s != [] {
      var rest := Split(s[1..], sep);
      JoinSplit(s[1..], sep);
      assert Join(rest, sep) == s[1..];
      if s[0] == sep {
        assert Join([[]] + rest, sep) == [] + [sep] + Join(rest, sep);
        assert s == [s[0]] + s[1..];
      } else if |rest| == 1 {
        assert Split(s, sep) == [[s[0]] + rest[0]];
        assert s == [s[0]] + s[1..];
      } else {
        var parts := Split(s, sep);
        assert parts[1..] == rest[1..];
        assert Join(parts, sep) == [s[0]] + rest[0] + [sep] + Join(rest[1..], sep);
        assert Join(rest, sep) == rest[0] + [sep] + Join(rest[1..], sep);
        assert s == [s[0]] + s[1..];
      }
    }
  }

  /** A string without the separator splits into itself alone. */
  lemma {:induction false} SplitNoSeparator(a: string, sep: char)
    requires sep !in a
    ensures Split(a, sep) == [a]
    decreases |a|
  {
    if a != [] {
      assert sep !in a[1..];
      SplitNoSeparator(a[1..], sep);
      assert [a[0]] + a[1..] == a;
    }
  }

  /** A separator-free head followed by the separator splits off as the first piece. */
  lemma {:induction false} SplitAfterHead(a: string, b: string, sep: char)
    requires sep !in a
    ensures Split(a + [sep] + b, sep) == [a] + Split(b, sep)
    decreases |a|
  {
    var s := a + [sep] + b;
    if a == [] {
      assert s[0] == sep && s[1..] == b;
    } else {
      assert s[0] == a[0] && s[1..] == a[1..] + [sep] + b;
      assert sep !in a[1..];
      SplitAfterHead(a[1..], b, sep);
      assert [a[0]] + a[1..] == a;
    }
  }

  /** Splitting a join of separator-free pieces gives back the pieces. */
  lemma {:induction false} SplitJoin(parts: seq<string>, sep: char)
    requires |parts| >= 1
    requires forall i :: 0 <= i < |parts| ==> sep !in parts[i]
    ensures Split(Join(parts, sep), sep) == parts
    decreases |parts|
  {
    if |parts| == 1 {
      SplitNoSeparator(parts[0], sep);
    } else {
      SplitJoin(parts[1..], sep);
      SplitAfterHead(parts[0], Join(parts[1..], sep), sep);
      assert [parts[0]] + parts[1..] == parts;
    }
  }

  /** The repository part of an image reference: `image.split(':')[0]`. */
  function ImageBase(image: string): (base: string)
    ensures base <= image
    ensures Colon !in base
    ensures |base| == |image| || image[|base|] == Colon
  {
    Split(image, Colon)[0]
  }

  /** Only one prefix of `image` is colon-free and stops at the first colon or the end. */
  lemma ImageBaseUnique(image: string, base: string)
    requires base <= image
    requires Colon !in base
    requires |base| == |image| || image[|base|] == Colon
    ensures ImageBase(image) == base
  {
    var b := ImageBase(image);
    assert |b| == |base|;
  }

  /**
   The image reference a container gets: `f"{image_base}:{new_image_tag}"`.
   It is the longest colon-free prefix of `image` (everything up to the first
   colon, or all of it), then a colon, then the tag, whatever the tag holds.
   */
  function Retag(image: string, tag: string): (r: string)
    ensures var n := |r| - |tag| - 1;
      && 0 <= n <= |image|
      && Colon !in image[..n]
      && (n == |image| || image[n] == Colon)
      && r == image[..n] + [Colon] + tag
  {
    ImageBase(image) + [Colon] + tag
  }

  /** Retagging splits into the old repository part and the pieces of the new tag. */
  lemma RetagSplit(image: string, tag: string)
    ensures Split(Retag(image, tag), Colon) == [ImageBase(image)] + Split(tag, Colon)
    ensures Colon !in tag ==> Split(Retag(image, tag), Colon) == [ImageBase(image), tag]
  {
    SplitAfterHead(ImageBase(image), tag, Colon);
    if Colon !in tag {
      SplitNoSeparator(tag, Colon);
    }
  }

  /** The repository part (text before the first colon) survives a retag unchanged. */
  lemma RetagKeepsRepository(image: string, tag: string)
    ensures ImageBase(Retag(image, tag)) == ImageBase(image)
  {
    RetagSplit(image, tag);
  }

  /** Retagging an already retagged image only the last tag matters. */
  lemma RetagLastTagWins(image: string, first: string, second: string)
    ensures Retag(Retag(image, first), second) == Retag(image, second)
  {
    RetagKeepsRepository(image, first);
  }

  /** Retagging twice with the same tag is the same as retagging once. */
  lemma RetagIdempotent(image: string, tag: string)
    ensures Retag(Retag(image, tag), tag) == Retag(image, tag)
  {
    RetagLastTagWins(image, tag, tag);
  }

  /**
   For a colon-free repository, both `repo:old` and a bare `repo` become
   `repo:tag`, whatever the old tag held (further colons included) and
   whatever the new tag is (the empty tag included).
   */
  lemma RetagReplacesTag(repo: string, oldTag: string, tag: string)
    requires Colon !in repo
    ensures Retag(repo + [Colon] + oldTag, tag) == repo + [Colon] + tag
    ensures Retag(repo, tag) == repo + [Colon] + tag
  {
    ImageBaseUnique(repo + [Colon] + oldTag, repo);
    ImageBaseUnique(repo, repo);
  }

  /** Concrete instances of the retag rule. */
  lemma RetagExamples()
    ensures Retag("repo:oldtag", "abc123") == "repo:abc123"
    ensures Retag("repo", "abc123") == "repo:abc123"
    ensures Retag("repo:old", "") == "repo:"
  {
    var repo := "repo";
    assert Colon !in repo;
    RetagReplacesTag(repo, "oldtag", "abc123");
    assert repo + [Colon] + "oldtag" == "repo:oldtag";
    assert repo + [Colon] + "abc123" == "repo:abc123";
    RetagReplacesTag(repo, "old", "");
    assert repo + [Colon] + "old" == "repo:old";
    assert repo + [Colon] + "" == "repo:";
  }

  /** A registry host with a port loses the port and everything after it, whatever the tag. */
  lemma RetagRegistryPortExample(tag: string)
    ensures Retag("host:5000/app:1", tag) == "host:" + tag
  {
    var host := "host";
    assert Colon !in host;
    RetagReplacesTag(host, "5000/app:1", tag);
    assert host + [Colon] + "5000/app:1" == "host:5000/app:1";
    assert host + [Colon] == "host:";
  }
}
