/** HibernateSearchMappingConfigurer.configure: the path of the application jar, cut out of
    the scheme-specific part of the code source's URI, from which the Jandex index is
    read. */
module MappingConfigurer {
  import opened JavaLang

  /** ssp.substring(ssp.indexOf(":") + 1, ssp.indexOf("!")): it succeeds exactly when ssp
      has a '!' and, if it has a ':' at all, its first ':' comes before its first '!'. */
  function JarPath(ssp: string): (r: Outcome<string>)
    ensures r.Returns? <==> '!' in ssp && (':' !in ssp || IndexOf(ssp, ':') < IndexOf(ssp, '!'))
    ensures r.Returns? ==> r.value == ssp[IndexOf(ssp, ':') + 1..IndexOf(ssp, '!')] && '!' !in r.value
    ensures r.Throws? ==> r.exception == StringIndexOutOfBoundsException
  {
    var colon := IndexOf(ssp, ':');
    var bang := IndexOf(ssp, '!');
    var r := Substring(ssp, colon + 1, bang);
    assert r.Returns? ==> r.value == ssp[colon + 1..bang];
    assert r.Returns? ==> forall k :: 0 <= k < |r.value| ==> r.value[k] == ssp[..bang][colon + 1 + k];
    r
  }

  /** The first occurrence of c in p + [c] + rest, when p has none, is at |p|. */
  lemma FirstOccurrence(s: string, c: char, p: string, rest: string)
    requires c !in p && s == p + [c] + rest
    ensures IndexOf(s, c) == |p|
  {
    assert s[|p|] == c;
  }

  /** A scheme-specific part "scheme:path!entry" with no ':' or '!' in the scheme and no '!'
      in the path gives the path, which may hold further ':'s; with "path!entry" and no ':'
      before the '!', extraction starts at index 0. */
  lemma JarPathOf(scheme: string, path: string, entry: string)
    requires ':' !in scheme && '!' !in scheme && '!' !in path
    ensures JarPath(scheme + ":" + path + "!" + entry) == Returns(path)
    ensures ':' !in path && ':' !in entry ==> JarPath(path + "!" + entry) == Returns(path)
  {
    var s := scheme + ":" + path + "!" + entry;
    FirstOccurrence(s, ':', scheme, path + "!" + entry);
    FirstOccurrence(s, '!', scheme + ":" + path, entry);
    assert s[|scheme| + 1..|scheme| + 1 + |path|] == path;
    if ':' !in path && ':' !in entry {
      var t := path + "!" + entry;
      FirstOccurrence(t, '!', path, entry);
      assert ':' !in t;
      assert t[0..|path|] == path;
    }
  }

  /** A '!' right after the first ':' gives the empty path. */
  lemma EmptyJarPath(scheme: string, entry: string)
    requires ':' !in scheme && '!' !in scheme
    ensures JarPath(scheme + ":!" + entry) == Returns("")
  {
    JarPathOf(scheme, "", entry);
    assert scheme + ":" + "" + "!" + entry == scheme + ":!" + entry;
  }

  /** The first occurrence of c at or after the end of a prefix without c, if c occurs;
      and never after a position holding c. */
  lemma OccurrenceBounds(s: string, c: char, n: nat, i: nat)
    requires n <= |s| && c !in s[..n]
    requires i < |s| && s[i] == c
    ensures n <= IndexOf(s, c) <= i
  {
    assert forall k :: 0 <= k < n ==> s[k] == s[..n][k];
    assert forall k :: 0 <= k < i ==> s[k] == s[..i][k];
  }

  /** Without '!', or with the first '!' before the first ':', substring throws. */
  lemma JarPathFailures(ssp: string, before: string, after: string)
    ensures '!' !in ssp ==> JarPath(ssp) == Throws(StringIndexOutOfBoundsException)
    ensures ':' !in before && ':' in after ==> JarPath(before + "!" + after) == Throws(StringIndexOutOfBoundsException)
  {
    if ':' !in before && ':' in after {
      var s := before + "!" + after;
      var i :| 0 <= i < |after| && after[i] == ':';
      assert s[|before| + 1 + i] == ':';
      assert s[|before|] == '!';
      assert s[..|before| + 1] == before + "!";
      OccurrenceBounds(s, ':', |before| + 1, |before| + 1 + i);
      OccurrenceBounds(s, '!', 0, |before|);
    }
  }

  /** A class loaded from the URI jar:file:/shop.jar!/ has the scheme-specific part below,
      and the jar path is /shop.jar. A Spring Boot fat jar, whose classes sit under
      jar:file:<jar>!/BOOT-INF/classes!/, is JarPathOf with entry "/BOOT-INF/classes!/". */
  lemma JarExample()
    ensures JarPath("file:/shop.jar!/") == Returns("/shop.jar")
  {
    var ssp := "file:/shop.jar!/";
    assert ssp == "file" + ":" + "/shop.jar" + "!" + "/";
    JarPathOf("file", "/shop.jar", "/");
  }

  /** What getCodeSource().getLocation().toURI() gives: a URI, with its scheme-specific
      part, or a URISyntaxException. */
  datatype CodeSourceUri = Uri(schemeSpecificPart: string) | Malformed(reason: string)

  /** configure: the jar path the Jandex index is read from. A URISyntaxException is
      rethrown wrapped in a RuntimeException; the StringIndexOutOfBoundsException of a
      failed extraction is not caught, so it leaves unwrapped. */
  function Configure(location: CodeSourceUri): (r: Outcome<string>)
    ensures location.Malformed? ==> r == Throws(RuntimeException(URISyntaxException(location.reason)))
    ensures location.Uri? ==> r == JarPath(location.schemeSpecificPart)
  {
    match location
    case Malformed(reason) => Throws(RuntimeException(URISyntaxException(reason)))
    case Uri(ssp) => JarPath(ssp)
  }

  /** configure throws a RuntimeException exactly when the URI is malformed, and otherwise
      succeeds exactly when the extraction does. */
  lemma ConfigureFailures(location: CodeSourceUri)
    ensures (Configure(location).Throws? && Configure(location).exception.RuntimeException?) <==> location.Malformed?
    ensures location.Uri? ==> (Configure(location).Returns? <==>
      ('!' in location.schemeSpecificPart &&
       (':' !in location.schemeSpecificPart || IndexOf(location.schemeSpecificPart, ':') < IndexOf(location.schemeSpecificPart, '!'))))
  {
  }
}
