/** Slugs and the generation of unused subdomains. */
module Names {
  import opened Fleet
  import opened Usernames

  predicate LowerOrDigit(c: char) {
    'a' <= c <= 'z' || '0' <= c <= '9'
  }

  predicate UpperAscii(c: char) {
    'A' <= c <= 'Z'
  }

  /** Unicode lowercasing, character by character: ASCII letters as usual, other ASCII
      characters unchanged, and never an ASCII capital, whatever the rest maps to. */
  ghost predicate Lowercasing(lower: char -> string) {
    forall c ::
      && (UpperAscii(c) ==> lower(c) == [(c as int + 32) as char])
      && (c as int < 0x80 && !UpperAscii(c) ==> lower(c) == [c])
      && (forall d :: d in lower(c) ==> !UpperAscii(d))
  }

  function LowerAll(lower: char -> string, s: string): string {
    if s == [] then [] else lower(s[0]) + LowerAll(lower, s[1..])
  }

  function Sanitize(c: char): char {
    if LowerOrDigit(c) || UpperAscii(c) then c else '-'
  }

  function SanitizeAll(s: string): (t: string)
    ensures |t| == |s|
  {
    seq(|s|, i requires 0 <= i < |s| => Sanitize(s[i]))
  }

  /** `split('-')`: always at least one piece, none containing a hyphen. */
  function Split(s: string): (parts: seq<string>)
    ensures |parts| > 0
  {
    if s == [] then [[]]
    else
      var rest := Split(s[1..]);
      if s[0] == '-' then [[]] + rest else [[s[0]] + rest[0]] + rest[1..]
  }

  function NonEmpty(parts: seq<string>): seq<string> {
    if parts == [] then []
    else (if parts[0] == [] then [] else [parts[0]]) + NonEmpty(parts[1..])
  }

  function Join(parts: seq<string>): string {
    if parts == [] then []
    else if |parts| == 1 then parts[0]
    else parts[0] + "-" + Join(parts[1..])
  }

  /** The slug of a lowercased name. */
  function Slug(s: string): string {
    Join(NonEmpty(Split(SanitizeAll(s))))
  }

  function Slugify(lower: char -> string, name: string): string {
    Slug(LowerAll(lower, name))
  }

  // The normal form.

  predicate SlugChar(c: char) {
    LowerOrDigit(c) || c == '-'
  }

  predicate NoDoubleHyphen(s: string) {
    forall i :: 0 <= i < |s| - 1 ==> !(s[i] == '-' && s[i + 1] == '-')
  }

  /** Only lowercase letters, digits and single hyphens between them. */
  predicate NormalForm(s: string) {
    && (forall i :: 0 <= i < |s| ==> SlugChar(s[i]))
    && NoDoubleHyphen(s)
    && (s != [] ==> s[0] != '-' && s[|s| - 1] != '-')
  }

  predicate Word(s: string) {
    s != [] && forall i :: 0 <= i < |s| ==> LowerOrDigit(s[i])
  }

  predicate AllWords(parts: seq<string>) {
    forall k :: 0 <= k < |parts| ==> Word(parts[k])
  }

  lemma NormalFormAppend(word: string, tail: string)
    requires Word(word) && NormalForm(tail) && tail != []
    ensures NormalForm(word + "-" + tail)
  {
    var s := word + "-" + tail;
    forall i | 0 <= i < |s| ensures SlugChar(s[i]) && (i + 1 < |s| ==> !(s[i] == '-' && s[i + 1] == '-')) {
      if i < |word| {
        assert s[i] == word[i];
      } else if i > |word| {
        assert s[i] == tail[i - |word| - 1];
        assert i + 1 < |s| ==> s[i + 1] == tail[i - |word|];
      } else {
        assert s[i + 1] == tail[0];
      }
    }
    assert s[0] == word[0] && s[|s| - 1] == tail[|tail| - 1];
  }

  lemma {:induction false} JoinedWordsAreNormal(parts: seq<string>)
    requires AllWords(parts)
    ensures NormalForm(Join(parts)) && (parts != [] ==> Join(parts) != [])
  {
    if |parts| == 1 {
      assert Word(parts[0]);
    } else if |parts| > 1 {
      assert AllWords(parts[1..]);
      JoinedWordsAreNormal(parts[1..]);
      NormalFormAppend(parts[0], Join(parts[1..]));
    }
  }

  lemma {:induction false} SplitPieces(s: string)
    requires forall i :: 0 <= i < |s| ==> SlugChar(s[i])
    ensures forall k :: 0 <= k < |Split(s)| ==> Split(s)[k] == [] || Word(Split(s)[k])
  {
    if s != [] {
      SplitPieces(s[1..]);
      var rest := Split(s[1..]);
      if s[0] != '-' {
        assert Word([s[0]] + rest[0]) by {
          assert rest[0] == [] || Word(rest[0]);
        }
      }
    }
  }

  lemma {:induction false} NonEmptyPieces(parts: seq<string>)
    requires forall k :: 0 <= k < |parts| ==> parts[k] == [] || Word(parts[k])
    ensures AllWords(NonEmpty(parts))
  {
    if parts != [] {
      NonEmptyPieces(parts[1..]);
    }
  }

  lemma {:induction false} JoinSplit(s: string)
    ensures Join(Split(s)) == s
  {
    if s != [] {
      JoinSplit(s[1..]);
      var rest := Split(s[1..]);
      if s[0] == '-' {
        assert Split(s)[1..] == rest;
        assert Join(Split(s)) == "-" + Join(rest);
      } else {
        assert Split(s)[1..] == rest[1..];
        assert |rest| > 1 ==> Join(Split(s)) == [s[0]] + (rest[0] + "-" + Join(rest[1..]));
      }
    }
  }

  /** A normal form splits into pieces none of which is empty. */
  lemma {:induction false} SplitHasNoGaps(s: string)
    requires NoDoubleHyphen(s) && (s != [] ==> s[|s| - 1] != '-')
    ensures forall k :: 1 <= k < |Split(s)| ==> Split(s)[k] != []
    ensures Split(s)[0] == [] <==> s == [] || s[0] == '-'
  {
    if s != [] {
      assert NoDoubleHyphen(s[1..]) by {
        forall i | 0 <= i < |s[1..]| - 1 ensures !(s[1..][i] == '-' && s[1..][i + 1] == '-') {
          assert s[1..][i] == s[i + 1] && s[1..][i + 1] == s[i + 2];
        }
      }
      SplitHasNoGaps(s[1..]);
      if s[0] == '-' {
        assert s[1] != '-';
      }
    }
  }

  lemma {:induction false} NonEmptyKeepsAll(parts: seq<string>)
    requires forall k :: 0 <= k < |parts| ==> parts[k] != []
    ensures NonEmpty(parts) == parts
  {
    if parts != [] {
      NonEmptyKeepsAll(parts[1..]);
    }
  }

  lemma {:induction false} LowerAllHasNoCapitals(lower: char -> string, s: string)
    requires Lowercasing(lower)
    ensures forall d :: d in LowerAll(lower, s) ==> !UpperAscii(d)
  {
    if s != [] {
      LowerAllHasNoCapitals(lower, s[1..]);
    }
  }

  lemma {:induction false} LowerAllKeepsSlugs(lower: char -> string, s: string)
    requires Lowercasing(lower) && forall i :: 0 <= i < |s| ==> SlugChar(s[i])
    ensures LowerAll(lower, s) == s
  {
    if s != [] {
      LowerAllKeepsSlugs(lower, s[1..]);
      assert SlugChar(s[0]);
    }
  }

  /** Every slug is a normal form, for every name in every script. */
  lemma SlugIsNormal(lower: char -> string, name: string)
    requires Lowercasing(lower)
    ensures NormalForm(Slugify(lower, name))
  {
    var s := SanitizeAll(LowerAll(lower, name));
    LowerAllHasNoCapitals(lower, name);
    forall i | 0 <= i < |s| ensures SlugChar(s[i]) {
      assert LowerAll(lower, name)[i] in LowerAll(lower, name);
    }
    SplitPieces(s);
    NonEmptyPieces(Split(s));
    JoinedWordsAreNormal(NonEmpty(Split(s)));
  }

  lemma SlugKeepsNormal(s: string)
    requires NormalForm(s)
    ensures Slug(s) == s
  {
    assert SanitizeAll(s) == s by {
      forall i | 0 <= i < |s| ensures Sanitize(s[i]) == s[i] {
        assert SlugChar(s[i]);
      }
    }
    if s == [] {
      assert Split(s) == [[]];
      assert NonEmpty([[]]) == NonEmpty([[]][1..]);
    } else {
      SplitHasNoGaps(s);
      NonEmptyKeepsAll(Split(s));
      JoinSplit(s);
    }
  }

  /** Slugging fixes exactly the normal forms. */
  lemma SlugFixesNormalForms(lower: char -> string, s: string)
    requires Lowercasing(lower)
    ensures Slugify(lower, s) == s <==> NormalForm(s)
  {
    SlugIsNormal(lower, s);
    if NormalForm(s) {
      LowerAllKeepsSlugs(lower, s);
      SlugKeepsNormal(s);
    }
  }

  lemma SlugIdempotent(lower: char -> string, name: string)
    requires Lowercasing(lower)
    ensures Slugify(lower, Slugify(lower, name)) == Slugify(lower, name)
  {
    SlugIsNormal(lower, name);
    SlugFixesNormalForms(lower, Slugify(lower, name));
  }

  // What the slug of any name is: two laws, for a word and for a separator.

  /** A lowercase word is its own slug. */
  lemma SlugOfWord(word: string)
    requires Word(word)
    ensures Slug(word) == word
  {
    assert NormalForm(word) by {
      forall i | 0 <= i < |word| ensures word[i] != '-' && SlugChar(word[i]) {
        assert LowerOrDigit(word[i]);
      }
    }
    SlugKeepsNormal(word);
  }

  /** The pieces of a string with one more character in front. */
  function Longer(c: char, parts: seq<string>): seq<string>
    requires parts != []
  {
    if c == '-' then [[]] + parts else [[c] + parts[0]] + parts[1..]
  }

  lemma SplitLonger(c: char, s: string)
    ensures Split([c] + s) == Longer(c, Split(s))
  {
    assert ([c] + s)[1..] == s;
  }

  lemma LongerAppend(c: char, a: seq<string>, b: seq<string>)
    requires a != []
    ensures Longer(c, a + b) == Longer(c, a) + b
  {
    assert (a + b)[0] == a[0] && (a + b)[1..] == a[1..] + b;
  }

  lemma {:induction false} SplitAppend(s: string, t: string)
    ensures Split(s + ['-'] + t) == Split(s) + Split(t)
  {
    if s == [] {
      SplitLonger('-', t);
      assert s + ['-'] + t == ['-'] + t;
    } else {
      var rest := s[1..] + ['-'] + t;
      SplitAppend(s[1..], t);
      SplitLonger(s[0], rest);
      SplitLonger(s[0], s[1..]);
      LongerAppend(s[0], Split(s[1..]), Split(t));
      assert s + ['-'] + t == [s[0]] + rest && s == [s[0]] + s[1..];
    }
  }

  lemma {:induction false} NonEmptyAppend(a: seq<string>, b: seq<string>)
    ensures NonEmpty(a + b) == NonEmpty(a) + NonEmpty(b)
  {
    if a == [] {
      assert a + b == b;
    } else {
      assert (a + b)[1..] == a[1..] + b;
      NonEmptyAppend(a[1..], b);
    }
  }

  lemma {:induction false} NonEmptyHasNoEmpty(parts: seq<string>)
    ensures forall k :: 0 <= k < |NonEmpty(parts)| ==> NonEmpty(parts)[k] != []
  {
    if parts != [] {
      NonEmptyHasNoEmpty(parts[1..]);
    }
  }

  lemma {:induction false} JoinAppend(a: seq<string>, b: seq<string>)
    requires a != [] && b != []
    ensures Join(a + b) == Join(a) + "-" + Join(b)
  {
    if |a| == 1 {
      assert (a + b)[1..] == b;
    } else {
      assert (a + b)[1..] == a[1..] + b;
      JoinAppend(a[1..], b);
      assert a[0] + "-" + (Join(a[1..]) + "-" + Join(b)) == a[0] + "-" + Join(a[1..]) + "-" + Join(b);
    }
  }

  /** Whatever is neither letter nor digit separates: the slug of the two sides is the slugs of
      both with one hyphen between them, or the one of them that is not empty. */
  lemma SlugAcross(s: string, c: char, t: string)
    requires !LowerOrDigit(c) && !UpperAscii(c)
    ensures Slug(s + [c] + t) ==
      if Slug(s) == [] then Slug(t) else if Slug(t) == [] then Slug(s) else Slug(s) + "-" + Slug(t)
  {
    var a, b := SanitizeAll(s), SanitizeAll(t);
    assert SanitizeAll(s + [c] + t) == a + ['-'] + b;
    SplitAppend(a, b);
    NonEmptyAppend(Split(a), Split(b));
    NonEmptyHasNoEmpty(Split(a));
    NonEmptyHasNoEmpty(Split(b));
    var left, right := NonEmpty(Split(a)), NonEmpty(Split(b));
    assert left + right == if left == [] then right else if right == [] then left else left + right;
    if left != [] && right != [] {
      JoinAppend(left, right);
    }
  }

  /** Lowercasing an ASCII name: capitals become the letters 32 places on. */
  lemma {:induction false} LowerAllOfAscii(lower: char -> string, s: string)
    requires Lowercasing(lower) && forall i :: 0 <= i < |s| ==> s[i] as int < 0x80
    ensures |LowerAll(lower, s)| == |s|
    ensures forall i :: 0 <= i < |s| ==> LowerAll(lower, s)[i] == if 'A' <= s[i] <= 'Z' then (s[i] as int + 32) as char else s[i]
  {
    if s != [] {
      assert lower(s[0]) == [if UpperAscii(s[0]) then (s[0] as int + 32) as char else s[0]];
      LowerAllOfAscii(lower, s[1..]);
    }
  }

  lemma SlugOfSentence(a: string, b: string, c: string)
    requires Word(a) && Word(b) && Word(c)
    ensures Slug(a + [' '] + (b + [' '] + (c + ['!'] + []))) == a + "-" + (b + "-" + c)
  {
    SlugOfWord(a);
    SlugOfWord(b);
    SlugOfWord(c);
    SlugKeepsNormal([]);
    SlugAcross(c, '!', []);
    SlugAcross(b, ' ', c + ['!'] + []);
    SlugAcross(a, ' ', b + [' '] + (c + ['!'] + []));
  }

  /** The slug of "My Cool VM!" is "my-cool-vm". */
  lemma SlugOfExample(lower: char -> string, name: string)
    requires Lowercasing(lower) && name == "My Cool VM!"
    ensures Slugify(lower, name) == "my-cool-vm"
  {
    var a, b, c := "my", "cool", "vm";
    LowerAllOfAscii(lower, name);
    assert LowerAll(lower, name) == a + [' '] + (b + [' '] + (c + ['!'] + []));
    SlugOfSentence(a, b, c);
  }

  // Generation.

  const ATTEMPTS := 20

  /** Three letters from 'a' to 'z'. */
  predicate IsSuffix(s: string) {
    |s| == 3 && forall i :: 0 <= i < 3 ==> 'a' <= s[i] <= 'z'
  }

  function Candidate(slug: string, suffix: string): string {
    slug + "-" + suffix
  }

  lemma CandidateNormalIff(slug: string, suffix: string)
    requires NormalForm(slug) && IsSuffix(suffix)
    ensures NormalForm(Candidate(slug, suffix)) <==> slug != []
    ensures NoDots(Candidate(slug, suffix))
  {
    var s := Candidate(slug, suffix);
    forall i | 0 <= i < |s| ensures SlugChar(s[i]) && s[i] == if i < |slug| then slug[i] else if i == |slug| then '-' else suffix[i - |slug| - 1] {
      if i < |slug| { assert SlugChar(slug[i]); }
    }
    if slug == [] {
      assert s[0] == '-';
    } else {
      forall i | 0 <= i < |s| - 1 ensures !(s[i] == '-' && s[i + 1] == '-') {
        if i + 1 < |slug| { assert !(slug[i] == '-' && slug[i + 1] == '-'); }
      }
    }
  }

  predicate NoneFree(vms: VmTable, slug: string, suffixes: seq<string>) {
    forall k :: 0 <= k < |suffixes| ==> SubdomainTaken(vms, Candidate(slug, suffixes[k]))
  }

  /** The slug is taken and `name` is the first candidate that is not. */
  predicate FirstFree(vms: VmTable, slug: string, suffixes: seq<string>, name: string) {
    && SubdomainTaken(vms, slug)
    && exists k :: 0 <= k < |suffixes| && name == Candidate(slug, suffixes[k]) && NoneFree(vms, slug, suffixes[..k])
  }

  /** The first free candidate: the slug and all candidates before it are held by some VM. */
  lemma FirstFreeMeans(vms: VmTable, slug: string, suffixes: seq<string>, name: string)
    requires FirstFree(vms, slug, suffixes, name)
    ensures exists id :: id in vms && vms[id].subdomain == slug
    ensures exists k ::
      && 0 <= k < |suffixes| && name == slug + "-" + suffixes[k]
      && forall j :: 0 <= j < k ==> exists id :: id in vms && vms[id].subdomain == slug + "-" + suffixes[j]
  {
    var k :| 0 <= k < |suffixes| && name == Candidate(slug, suffixes[k]) && NoneFree(vms, slug, suffixes[..k]);
    forall j | 0 <= j < k ensures exists id :: id in vms && vms[id].subdomain == slug + "-" + suffixes[j] {
      assert SubdomainTaken(vms, Candidate(slug, suffixes[..k][j]));
    }
  }

  /** The slug itself if it is free, else the first free candidate of twenty. The random
      suffixes are an input. */
  method Generate(vms: VmTable, lower: char -> string, name: string, suffixes: seq<string>) returns (r: Result<string>)
    requires Lowercasing(lower)
    requires |suffixes| == ATTEMPTS && forall k :: 0 <= k < ATTEMPTS ==> IsSuffix(suffixes[k])
    ensures r.Ok? ==> !SubdomainTaken(vms, r.value) && NoDots(r.value)
    ensures r.Ok? ==> r.value == Slugify(lower, name) || FirstFree(vms, Slugify(lower, name), suffixes, r.value)
    ensures r.Ok? && r.value != Slugify(lower, name) ==>
      exists k :: 0 <= k < |suffixes| && r.value == Slugify(lower, name) + "-" + suffixes[k]
    ensures r.Ok? ==> (NormalForm(r.value) <==> Slugify(lower, name) != [] || r.value == [])
    ensures r.Err? <==> SubdomainTaken(vms, Slugify(lower, name)) && NoneFree(vms, Slugify(lower, name), suffixes)
  {
    var slug := Slugify(lower, name);
    SlugIsNormal(lower, name);
    if !SubdomainTaken(vms, slug) {
      assert NoDots(slug) by {
        forall i | 0 <= i < |slug| ensures slug[i] != '.' { assert SlugChar(slug[i]); }
      }
      return Ok(slug);
    }
    for k := 0 to ATTEMPTS
      invariant NoneFree(vms, slug, suffixes[..k])
    {
      var candidate := Candidate(slug, suffixes[k]);
      if !SubdomainTaken(vms, candidate) {
        CandidateNormalIff(slug, suffixes[k]);
        return Ok(candidate);
      }
    }
    assert suffixes[..ATTEMPTS] == suffixes;
    r := Err("could not generate unique subdomain");
  }

  /** A name without a dot has no owner, so no username change ever renames a VM whose
      subdomain was generated. */
  lemma GeneratedNamesAreNeverRenamed(subdomain: string, old_: string, new_: string)
    requires NoDots(subdomain)
    ensures NewName(subdomain, old_, new_) == subdomain
  {
    if OwnedBy(subdomain, old_) {
      OwnedHasDot(subdomain, old_);
    }
  }
}
