/** `sanitizeImageName`: strips the default registry and the `library`
    namespace from an image reference, using three regular expressions
    searched with `Matcher.find()`. */
module ImageName {
  import opened Wrappers

  /** One element of a pattern prefix: a literal character, or an unescaped
      `.` which matches any character but a line terminator. */
  datatype Atom = Lit(c: char) | AnyChar

  /** The line terminators Java's `.` does not match (no UNIX_LINES flag). */
  predicate IsLineTerminator(c: char)
  {
    c == '\n' || c == '\r' || c as int == 0x85 || c as int == 0x2028 || c as int == 0x2029
  }

  predicate AtomMatches(a: Atom, c: char)
  {
    match a
    case Lit(l) => c == l
    case AnyChar => !IsLineTerminator(c)
  }

  /** The atoms of a regular-expression text made only of literals and `.`. */
  function Atoms(regex: string): (p: seq<Atom>)
    ensures |p| == |regex|
    ensures forall k :: 0 <= k < |regex| ==> p[k] == if regex[k] == '.' then AnyChar else Lit(regex[k])
  {
    seq(|regex|, k requires 0 <= k < |regex| => if regex[k] == '.' then AnyChar else Lit(regex[k]))
  }

  /** Each pattern is `<prefix>(.*)`; these are the prefixes, in the order
      they are tried. */
  const DockerIoLibrary: seq<Atom> := Atoms("docker.io/library/")
  const Library: seq<Atom> := Atoms("library/")
  const DockerIo: seq<Atom> := Atoms("docker.io/")

  /** The prefix matches `s` starting at index `i`. */
  predicate MatchesAt(p: seq<Atom>, s: string, i: nat)
  {
    i + |p| <= |s| && forall k :: 0 <= k < |p| ==> AtomMatches(p[k], s[i + k])
  }

  /** The leftmost index at or after `i` where the prefix matches: the start
      `find()` reports, since `(.*)` matches wherever the prefix does. */
  function FindFrom(p: seq<Atom>, s: string, i: nat): (r: Option<nat>)
    requires i <= |s|
    ensures r.Some? ==> i <= r.value && MatchesAt(p, s, r.value)
    ensures r.Some? ==> forall j :: i <= j < r.value ==> !MatchesAt(p, s, j)
    ensures r.None? ==> forall j :: i <= j <= |s| ==> !MatchesAt(p, s, j)
    decreases |s| - i
  {
    if MatchesAt(p, s, i) then Some(i)
    else if i == |s| then None
    else FindFrom(p, s, i + 1)
  }

  /** Where the greedy `.*` starting at `j` stops: the first line terminator
      at or after `j`, or the end of the string. */
  function LineEnd(s: string, j: nat): (e: nat)
    requires j <= |s|
    ensures j <= e <= |s|
    ensures forall k :: j <= k < e ==> !IsLineTerminator(s[k])
    ensures e < |s| ==> IsLineTerminator(s[e])
    decreases |s| - j
  {
    if j == |s| || IsLineTerminator(s[j]) then j else LineEnd(s, j + 1)
  }

  /** `m.find() ? m.group(1) : none` for the pattern `<p>(.*)`. */
  function Capture(p: seq<Atom>, s: string): (r: Option<string>)
    ensures r.None? <==> forall j :: 0 <= j <= |s| ==> !MatchesAt(p, s, j)
  {
    match FindFrom(p, s, 0)
    case None => None
    case Some(i) => Some(s[i + |p|..LineEnd(s, i + |p|)])
  }

  predicate Occurs(p: seq<Atom>, s: string)
  {
    FindFrom(p, s, 0).Some?
  }

  /** The three patterns in order; the first one found anywhere decides,
      and when none is found the image is returned unchanged. */
  function Sanitize(image: string): (r: string)
    ensures !Occurs(DockerIoLibrary, image) && !Occurs(Library, image) && !Occurs(DockerIo, image)
            <==> r == image
    ensures |r| <= |image|
    ensures forall k :: 0 <= k < |r| ==> !IsLineTerminator(r[k]) || r == image
  {
    match Capture(DockerIoLibrary, image)
    case Some(g) => g
    case None =>
      match Capture(Library, image)
      case Some(g) => g
      case None =>
        match Capture(DockerIo, image)
        case Some(g) => g
        case None => image
  }

  predicate NoLineTerminator(s: string)
  {
    forall k :: 0 <= k < |s| ==> !IsLineTerminator(s[k])
  }

  lemma LineEndWithoutTerminator(s: string, j: nat)
    requires j <= |s| && NoLineTerminator(s)
    ensures LineEnd(s, j) == |s|
  {
  }

  /** Without line terminators the captured text is the whole rest of the
      string after the leftmost match of the prefix. */
  lemma CaptureIsRest(p: seq<Atom>, s: string)
    requires NoLineTerminator(s) && Occurs(p, s)
    ensures Capture(p, s) == Some(s[FindFrom(p, s, 0).value + |p|..])
  {
    var i := FindFrom(p, s, 0).value;
    LineEndWithoutTerminator(s, i + |p|);
    assert s[i + |p|..LineEnd(s, i + |p|)] == s[i + |p|..];
  }

  /** A result that differs from the image is a proper suffix of it when the
      image holds no line terminator. */
  lemma SanitizeIsSuffix(image: string)
    requires NoLineTerminator(image)
    ensures |Sanitize(image)| <= |image|
    ensures image[|image| - |Sanitize(image)|..] == Sanitize(image)
  {
    if Occurs(DockerIoLibrary, image) {
      CaptureIsRest(DockerIoLibrary, image);
    } else if Occurs(Library, image) {
      CaptureIsRest(Library, image);
    } else if Occurs(DockerIo, image) {
      CaptureIsRest(DockerIo, image);
    }
  }

  /** The first rule: an image starting with `docker.io/library/` loses
      that prefix. */
  lemma DockerIoLibraryRule(s: string, rest: string)
    requires s == "docker.io/library/" + rest
    requires NoLineTerminator(rest)
    ensures Sanitize(s) == rest
  {
    assert MatchesAt(DockerIoLibrary, s, 0);
    assert NoLineTerminator(s) by {
      forall k | 0 <= k < |s| ensures !IsLineTerminator(s[k]) {
        if k >= 18 { assert s[k] == rest[k - 18]; }
      }
    }
    CaptureIsRest(DockerIoLibrary, s);
    assert s[18..] == rest;
  }

  /** The second rule: an image starting with `library/` loses that prefix,
      provided the first pattern occurs nowhere in it. */
  lemma LibraryRule(s: string, rest: string)
    requires s == "library/" + rest
    requires NoLineTerminator(rest)
    requires !Occurs(DockerIoLibrary, s)
    ensures Sanitize(s) == rest
  {
    assert MatchesAt(Library, s, 0);
    assert NoLineTerminator(s) by {
      forall k | 0 <= k < |s| ensures !IsLineTerminator(s[k]) {
        if k >= 8 { assert s[k] == rest[k - 8]; }
      }
    }
    CaptureIsRest(Library, s);
    assert s[8..] == rest;
  }

  /** The third rule: an image starting with `docker.io/` loses that prefix,
      provided neither earlier pattern occurs anywhere in it. */
  lemma DockerIoRule(s: string, rest: string)
    requires s == "docker.io/" + rest
    requires NoLineTerminator(rest)
    requires !Occurs(DockerIoLibrary, s) && !Occurs(Library, s)
    ensures Sanitize(s) == rest
  {
    assert MatchesAt(DockerIo, s, 0);
    assert NoLineTerminator(s) by {
      forall k | 0 <= k < |s| ensures !IsLineTerminator(s[k]) {
        if k >= 10 { assert s[k] == rest[k - 10]; }
      }
    }
    CaptureIsRest(DockerIo, s);
    assert s[10..] == rest;
  }

  // ---------------------------------------------------------------------
  // Concrete references. A prefix cannot match at `i` when the image does
  // not hold, at `i + k` and `i + k2`, the literal characters the prefix
  // has at `k` and `k2`.

  /** No position of `s` before `j` where the prefix could fit holds both
      literal characters the prefix has at `k` and `k2`; `m` ranges over the
      positions compared with the prefix's `k`-th atom. */
  predicate Excluded(p: seq<Atom>, s: string, k: nat, k2: nat, j: nat)
    requires k < |p| && k2 < |p| && p[k].Lit? && p[k2].Lit?
  {
    forall m :: k <= m < j + k && m + |p| - k <= |s| ==>
      s[m] != p[k].c || s[m - k + k2] != p[k2].c
  }

  lemma NoMatchBefore(p: seq<Atom>, s: string, k: nat, k2: nat, j: nat)
    requires k < |p| && k2 < |p| && p[k].Lit? && p[k2].Lit?
    requires Excluded(p, s, k, k2, j)
    ensures forall i :: 0 <= i < j ==> !MatchesAt(p, s, i)
  {
    forall i | 0 <= i < j
      ensures !MatchesAt(p, s, i)
    {
      if i + |p| <= |s| {
        var m := i + k;
        assert s[m] != p[k].c || s[m - k + k2] != p[k2].c;
        assert !AtomMatches(p[k], s[i + k]) || !AtomMatches(p[k2], s[i + k2]);
      }
    }
  }

  /** The prefix occurs nowhere in `s`. */
  lemma Absent(p: seq<Atom>, s: string, k: nat, k2: nat)
    requires k < |p| && k2 < |p| && p[k].Lit? && p[k2].Lit?
    requires Excluded(p, s, k, k2, |s| + 1)
    ensures !Occurs(p, s)
  {
    NoMatchBefore(p, s, k, k2, |s| + 1);
  }

  /** The leftmost occurrence of the prefix in `s` is at `j`. */
  lemma FoundAt(p: seq<Atom>, s: string, k: nat, k2: nat, j: nat)
    requires k < |p| && k2 < |p| && p[k].Lit? && p[k2].Lit?
    requires Excluded(p, s, k, k2, j)
    requires MatchesAt(p, s, j)
    ensures FindFrom(p, s, 0) == Some(j)
  {
    NoMatchBefore(p, s, k, k2, j);
  }

  // Each reference below names its image through a parameter fixed by
  // the precondition, and establishes where the patterns occur in a
  // separate lemma, so that the search is never unfolded on a literal
  // argument together with `Sanitize`.

  /** Test reference: `docker.io/library/alpine:latest` becomes
      `alpine:latest`. */
  lemma DockerIoLibraryExample(image: string)
    requires image == "docker.io/library/alpine:latest"
    ensures Sanitize(image) == "alpine:latest"
  {
    DockerIoLibraryExampleParts(image);
    DockerIoLibraryRule(image, image[18..]);
  }

  lemma DockerIoLibraryExampleParts(image: string)
    requires image == "docker.io/library/alpine:latest"
    ensures image == "docker.io/library/" + image[18..]
    ensures image[18..] == "alpine:latest" && NoLineTerminator(image[18..])
  {
  }

  /** Test reference: `library/alpine:latest` becomes `alpine:latest`. */
  lemma LibraryExample(image: string)
    requires image == "library/alpine:latest"
    ensures Sanitize(image) == "alpine:latest"
  {
    LibraryExampleParts(image);
    LibraryExampleNoDockerIoLibrary(image);
    LibraryRule(image, image[8..]);
  }

  lemma LibraryExampleParts(image: string)
    requires image == "library/alpine:latest"
    ensures image == "library/" + image[8..]
    ensures image[8..] == "alpine:latest" && NoLineTerminator(image[8..])
  {
  }

  lemma LibraryExampleNoDockerIoLibrary(image: string)
    requires image == "library/alpine:latest"
    ensures !Occurs(DockerIoLibrary, image)
  {
    Absent(DockerIoLibrary, image, 16, 16);
  }

  /** Test reference: `docker.io/alpine/socat:latest` becomes
      `alpine/socat:latest`. */
  lemma DockerIoExample(image: string)
    requires image == "docker.io/alpine/socat:latest"
    ensures Sanitize(image) == "alpine/socat:latest"
  {
    DockerIoExampleParts(image);
    Absent(DockerIoLibrary, image, 16, 16);
    DockerIoExampleNoLibrary(image);
    DockerIoRule(image, image[10..]);
  }

  lemma DockerIoExampleParts(image: string)
    requires image == "docker.io/alpine/socat:latest"
    ensures image == "docker.io/" + image[10..]
    ensures image[10..] == "alpine/socat:latest" && NoLineTerminator(image[10..])
  {
  }

  lemma DockerIoExampleNoLibrary(image: string)
    requires image == "docker.io/alpine/socat:latest"
    ensures !Occurs(Library, image)
  {
    Absent(Library, image, 6, 6);
  }

  /** Test reference: a short name is returned unchanged. */
  lemma ShortNameUnchanged(image: string)
    requires image == "alpine:latest"
    ensures Sanitize(image) == image
  {
    Absent(DockerIoLibrary, image, 0, 0);
    Absent(Library, image, 7, 7);
    Absent(DockerIo, image, 0, 0);
  }

  lemma OtherRegistryNoLibrary(image: string)
    requires image == "registry.hub.docker.com/alpine/socat:latest"
    ensures !Occurs(Library, image)
  {
    Absent(Library, image, 0, 6);
  }

  lemma OtherRegistryNoDockerIo(image: string)
    requires image == "registry.hub.docker.com/alpine/socat:latest"
    ensures !Occurs(DockerIo, image)
  {
    Absent(DockerIo, image, 0, 7);
  }

  /** Test reference: another registry's host name is not the default
      registry, even though it contains `docker`. */
  lemma OtherRegistryUnchanged(image: string)
    requires image == "registry.hub.docker.com/alpine/socat:latest"
    ensures Sanitize(image) == image
  {
    Absent(DockerIoLibrary, image, 16, 16);
    OtherRegistryNoLibrary(image);
    OtherRegistryNoDockerIo(image);
  }

  lemma PrivateRegistryNoDockerIoLibrary(image: string)
    requires image == "nexus.iex.ec/some-app:latest"
    ensures !Occurs(DockerIoLibrary, image)
  {
    Absent(DockerIoLibrary, image, 3, 3);
  }

  lemma PrivateRegistryNoDockerIo(image: string)
    requires image == "nexus.iex.ec/some-app:latest"
    ensures !Occurs(DockerIo, image)
  {
    Absent(DockerIo, image, 3, 3);
  }

  /** Test reference: a private registry image is returned unchanged. */
  lemma PrivateRegistryUnchanged(image: string)
    requires image == "nexus.iex.ec/some-app:latest"
    ensures Sanitize(image) == image
  {
    PrivateRegistryNoDockerIoLibrary(image);
    Absent(Library, image, 6, 6);
    PrivateRegistryNoDockerIo(image);
  }

  lemma DoubledRegistryOccurrences(image: string)
    requires image == "docker.io/docker.io/x" || image == "docker.io/x"
    ensures !Occurs(DockerIoLibrary, image) && !Occurs(Library, image)
  {
    Absent(DockerIoLibrary, image, 16, 16);
    Absent(Library, image, 6, 6);
  }

  lemma DoubledRegistryParts(image: string)
    requires image == "docker.io/docker.io/x"
    ensures image == "docker.io/" + image[10..] && image[10..] == "docker.io/x"
    ensures image[10..] == "docker.io/" + image[20..] && image[20..] == "x"
    ensures NoLineTerminator(image[10..]) && NoLineTerminator(image[20..])
  {
  }

  /** Not idempotent: a doubled default registry loses one copy per call. */
  lemma NotIdempotent(image: string)
    requires image == "docker.io/docker.io/x"
    ensures Sanitize(image) == "docker.io/x"
    ensures Sanitize(Sanitize(image)) == "x"
  {
    DoubledRegistryParts(image);
    DoubledRegistryOccurrences(image);
    DockerIoRule(image, image[10..]);
    var once := image[10..];
    DoubledRegistryOccurrences(once);
    assert once[10..] == image[20..];
    DockerIoRule(once, once[10..]);
  }

  lemma UnanchoredMatch(image: string)
    requires image == "nexus.iex.ec/library/app:latest"
    ensures MatchesAt(Library, image, 13)
  {
    assert image[13..21] == "library/";
    assert forall k :: 0 <= k < |Library| ==> image[13 + k] == image[13..21][k];
  }

  lemma UnanchoredOccurrences(image: string)
    requires image == "nexus.iex.ec/library/app:latest"
    ensures FindFrom(Library, image, 0) == Some(13)
  {
    UnanchoredMatch(image);
    FoundAt(Library, image, 0, 0, 13);
  }

  lemma UnanchoredRest(image: string)
    requires image == "nexus.iex.ec/library/app:latest"
    ensures NoLineTerminator(image) && image[21..] == "app:latest"
  {
  }

  /** Not anchored: a `library/` segment anywhere strips everything before
      it, a private registry included. */
  lemma Unanchored(image: string)
    requires image == "nexus.iex.ec/library/app:latest"
    ensures Sanitize(image) == "app:latest"
  {
    Absent(DockerIoLibrary, image, 3, 3);
    UnanchoredOccurrences(image);
    UnanchoredRest(image);
    CaptureIsRest(Library, image);
  }

  lemma WildcardOccurrences(image: string)
    requires image == "dockerXio/app"
    ensures !Occurs(DockerIoLibrary, image) && !Occurs(Library, image)
  {
    Absent(DockerIoLibrary, image, 16, 16);
    Absent(Library, image, 6, 6);
  }

  lemma WildcardParts(image: string)
    requires image == "dockerXio/app"
    ensures FindFrom(DockerIo, image, 0) == Some(0)
    ensures NoLineTerminator(image) && image[10..] == "app"
  {
    FoundAt(DockerIo, image, 0, 0, 0);
  }

  /** The `.` of `docker.io` is a wildcard. */
  lemma DotIsWildcard(image: string)
    requires image == "dockerXio/app"
    ensures Sanitize(image) == "app"
  {
    WildcardOccurrences(image);
    WildcardParts(image);
    CaptureIsRest(DockerIo, image);
  }

  lemma FirstPatternMatch(image: string)
    requires image == "library/docker.io/library/x"
    ensures MatchesAt(DockerIoLibrary, image, 8)
  {
    assert image[8..26] == "docker.io/library/";
    assert forall k :: 0 <= k < |DockerIoLibrary| ==> image[8 + k] == image[8..26][k];
  }

  lemma FirstPatternOccurrences(image: string)
    requires image == "library/docker.io/library/x"
    ensures FindFrom(DockerIoLibrary, image, 0) == Some(8)
  {
    FirstPatternMatch(image);
    FoundAt(DockerIoLibrary, image, 0, 0, 8);
  }

  lemma FirstPatternRest(image: string)
    requires image == "library/docker.io/library/x"
    ensures NoLineTerminator(image) && image[26..] == "x"
  {
  }

  /** Order matters: the first pattern wins even where the second occurs
      further left. */
  lemma FirstPatternWins(image: string)
    requires image == "library/docker.io/library/x"
    ensures Sanitize(image) == "x"
  {
    FirstPatternOccurrences(image);
    FirstPatternRest(image);
    CaptureIsRest(DockerIoLibrary, image);
  }

  lemma LineTerminatorOccurrences(image: string)
    requires image == "docker.io/a\nb"
    ensures !Occurs(DockerIoLibrary, image) && !Occurs(Library, image)
    ensures FindFrom(DockerIo, image, 0) == Some(0)
  {
    Absent(DockerIoLibrary, image, 16, 16);
    Absent(Library, image, 6, 6);
    FoundAt(DockerIo, image, 0, 0, 0);
  }

  /** The capture stops at the first line terminator. */
  lemma StopsAtLineTerminator(image: string)
    requires image == "docker.io/a\nb"
    ensures Sanitize(image) == "a"
  {
    LineTerminatorOccurrences(image);
    assert LineEnd(image, 11) == 11;
    assert LineEnd(image, 10) == 11;
    assert image[10..11] == "a";
  }
}
