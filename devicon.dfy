/**
 * The Devicon logo URL the skill badge and the project modal derive from a
 * skill name: lower-case it, drop dots and whitespace, swap a few awkward
 * names through a fixed table, and build the CDN path. The two components
 * carry their own copies of the table; the modal's lacks two entries.
 */
module Devicon {
  import opened Text

  /** Which component's copy of the helper is in use. */
  datatype Component = SkillBadge | ProjectModal

  const IconBase: string := "https://" + "cdn.jsdelivr.net/gh/devicons/devicon/icons/"

  const BadgeMappings: map<string, string> := map[
    "c++" := "cplusplus", "c#" := "csharp", "html" := "html5", "css" := "css3",
    "aws" := "amazonwebservices", "js" := "javascript", "postman" := "postman",
    "node" := "nodejs", "postgres" := "postgresql", "postgresql" := "postgresql",
    "drf" := "django", "restapi" := "fastapi"]

  const ModalMappings: map<string, string> := map[
    "c++" := "cplusplus", "c#" := "csharp", "html" := "html5", "css" := "css3",
    "aws" := "amazonwebservices", "js" := "javascript", "postman" := "postman",
    "node" := "nodejs", "postgres" := "postgresql", "drf" := "django"]

  function Mappings(c: Component): map<string, string> {
    match c
    case SkillBadge => BadgeMappings
    case ProjectModal => ModalMappings
  }

  /** The modal's table is the badge's without "postgresql" and "restapi". */
  lemma ModalTableIsSmaller()
    ensures ModalMappings == BadgeMappings - {"postgresql", "restapi"}
  {
  }

  predicate IsDot(c: char) {
    c == '.'
  }

  /** A slug character: never a capital, a dot or whitespace. */
  predicate IsSlugChar(c: char) {
    !('A' <= c <= 'Z') && !IsDot(c) && !IsJsSpace(c)
  }

  predicate IsSlug(s: string) {
    forall c | c in s :: IsSlugChar(c)
  }

  /** Lower-case letters and digits, the only characters the tables' values use. */
  predicate IsPlain(s: string) {
    forall c | c in s :: 'a' <= c <= 'z' || '0' <= c <= '9'
  }

  lemma PlainIsSlug(s: string)
    requires IsPlain(s)
    ensures IsSlug(s)
  {
  }

  lemma BadgeValuesArePlain()
    ensures forall k | k in BadgeMappings :: IsPlain(BadgeMappings[k])
  {
    forall k | k in BadgeMappings ensures IsPlain(BadgeMappings[k]) {
      ValueIsPlain(BadgeMappings[k]);
    }
  }

  lemma ValueIsPlain(v: string)
    requires v in BadgeMappings.Values
    ensures IsPlain(v)
  {
    assert v in {"cplusplus", "csharp", "html5", "css3", "amazonwebservices", "javascript",
                 "postman", "nodejs", "postgresql", "django", "fastapi"};
  }

  /** A table whose values that are also keys map to themselves. */
  predicate Closed(m: map<string, string>) {
    forall k | k in m :: m[k] !in m || m[m[k]] == m[k]
  }

  lemma BadgeTableIsClosed()
    ensures Closed(BadgeMappings)
  {
    var m := BadgeMappings;
    forall k | k in m ensures m[k] !in m || m[m[k]] == m[k] {
      if m[k] != "postman" && m[k] != "postgresql" {
        ValueNotAKey(m[k]);
      }
    }
  }

  /** The values other than "postman" and "postgresql" are not keys. */
  lemma ValueNotAKey(v: string)
    requires v in BadgeMappings.Values && v != "postman" && v != "postgresql"
    ensures v !in BadgeMappings
  {
  }

  /** Removing keys from a closed table keeps it closed. */
  lemma ClosedWithout(m: map<string, string>, drop: set<string>)
    requires Closed(m)
    ensures Closed(m - drop)
  {
  }

  lemma TablesAreClosed()
    ensures Closed(BadgeMappings) && Closed(ModalMappings)
  {
    BadgeTableIsClosed();
    ModalTableIsSmaller();
    ClosedWithout(BadgeMappings, {"postgresql", "restapi"});
  }

  /** The table's values are slugs, and a value that is also a key maps to itself. */
  lemma MappingsAreClosed(c: Component)
    ensures forall k | k in Mappings(c) :: IsSlug(Mappings(c)[k])
    ensures forall k | k in Mappings(c) ::
              Mappings(c)[k] !in Mappings(c) || Mappings(c)[Mappings(c)[k]] == Mappings(c)[k]
  {
    BadgeValuesArePlain();
    ModalTableIsSmaller();
    TablesAreClosed();
    forall k | k in Mappings(c) ensures IsSlug(Mappings(c)[k]) {
      PlainIsSlug(Mappings(c)[k]);
    }
  }

  /** `name.toLowerCase().replace(/\./g, '').replace(/\s/g, '')`. */
  function CleanName(name: string): (r: string)
    ensures IsSlug(r)
  {
    LowerIsLowered(name);
    Without(Without(Lower(name), IsDot), IsJsSpace)
  }

  /** The name that goes into the URL: the cleaned name, swapped once through the table. */
  function IconSlug(c: Component, name: string): (n: string)
    ensures CleanName(name) in Mappings(c) ==> n == Mappings(c)[CleanName(name)]
    ensures CleanName(name) !in Mappings(c) ==> n == CleanName(name)
    ensures IsSlug(n)
  {
    MappingsAreClosed(c);
    var clean := CleanName(name);
    if clean in Mappings(c) then Mappings(c)[clean] else clean
  }

  function UrlOfSlug(n: string): string {
    IconBase + n + "/" + n + "-original.svg"
  }

  /**
   * `getIconUrl`: the CDN folder of the slug, holding the slug's "original"
   * SVG.
   */
  function IconUrl(c: Component, name: string): (r: string)
    ensures |r| == |IconBase| + 2 * |IconSlug(c, name)| + 14
    ensures r[..|IconBase|] == IconBase
    ensures r[|r| - 13..] == "-original.svg"
    ensures r[|IconBase|..|IconBase| + |IconSlug(c, name)|] == IconSlug(c, name)
    ensures IsSlug(r[|IconBase|..|IconBase| + |IconSlug(c, name)|])
    ensures r == IconBase + IconSlug(c, name) + "/" + IconSlug(c, name) + "-original.svg"
  {
    UrlShape(IconSlug(c, name));
    UrlOfSlug(IconSlug(c, name))
  }

  lemma UrlShape(n: string)
    ensures |UrlOfSlug(n)| == |IconBase| + 2 * |n| + 14
    ensures UrlOfSlug(n)[..|IconBase|] == IconBase
    ensures UrlOfSlug(n)[|UrlOfSlug(n)| - 13..] == "-original.svg"
    ensures UrlOfSlug(n)[|IconBase|..|IconBase| + |n|] == n
  {
    var u := UrlOfSlug(n);
    assert u == IconBase + (n + ("/" + (n + "-original.svg")));
  }

  /** The URL names its slug: two slugs with the same URL are equal. */
  lemma UrlDeterminesSlug(n1: string, n2: string)
    requires UrlOfSlug(n1) == UrlOfSlug(n2)
    ensures n1 == n2
  {
    var u := UrlOfSlug(n1);
    assert |n1| == |n2|;
    assert u[|IconBase|..|IconBase| + |n1|] == n1;
    assert UrlOfSlug(n2)[|IconBase|..|IconBase| + |n2|] == n2;
  }

  /** A slug is its own cleaned form. */
  lemma CleanSlug(s: string)
    requires IsSlug(s)
    ensures CleanName(s) == s
  {
    assert IsLowered(s);
    LoweredIsFixed(s);
    WithoutNothing(s, IsDot);
    WithoutNothing(s, IsJsSpace);
  }

  /** Feeding a slug back in gives the same slug: the one table swap never needs repeating. */
  lemma SlugIdempotent(c: Component, name: string)
    ensures IconSlug(c, IconSlug(c, name)) == IconSlug(c, name)
  {
    MappingsAreClosed(c);
    CleanSlug(IconSlug(c, name));
  }

  /** Upper-casing a skill name does not change its icon. */
  lemma IconUrlIgnoresCase(c: Component, name: string)
    ensures IconUrl(c, Upper(name)) == IconUrl(c, name)
  {
    LowerOfUpper(name);
  }

  /** Inserting a dot or a whitespace character anywhere in a name does not change its icon. */
  lemma IconUrlIgnoresDotsAndSpaces(c: Component, a: string, d: char, b: string)
    requires IsDot(d) || IsJsSpace(d)
    ensures IconUrl(c, a + [d] + b) == IconUrl(c, a + b)
  {
    CleanDropsChar(a, d, b);
  }

  lemma CleanDropsChar(a: string, d: char, b: string)
    requires IsDot(d) || IsJsSpace(d)
    ensures CleanName(a + [d] + b) == CleanName(a + b)
  {
    var la, lb := Lower(a), Lower(b);
    LowerAppend(a + [d], b);
    LowerAppend(a, [d]);
    LowerAppend(a, b);
    assert Lower([d]) == [d];
    assert Lower(a + [d] + b) == la + [d] + lb;
    DropOne(la, d, lb);
  }

  lemma DropOne(la: string, d: char, lb: string)
    requires IsDot(d) || IsJsSpace(d)
    ensures Without(Without(la + [d] + lb, IsDot), IsJsSpace) == Without(Without(la + lb, IsDot), IsJsSpace)
  {
    if IsDot(d) {
      WithoutSkips(la, d, lb, IsDot);
    } else {
      WithoutKeeps(la, d, lb, IsDot);
      WithoutAppend(la, lb, IsDot);
      WithoutSkips(Without(la, IsDot), d, Without(lb, IsDot), IsJsSpace);
    }
  }
}
