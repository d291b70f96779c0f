/**
 * The service-suggestion rule engine: a fixed, ordered list of named
 * conditions, filtered against one analysed place. The conditions follow
 * JavaScript semantics: `!x` holds of an absent or empty value, and a `<`
 * comparison with an absent (undefined) operand is false.
 */
module ServiceRules {
  import opened Js
  import opened Places

  /** A named condition on an analysed place. */
  datatype ServiceSuggestion = ServiceSuggestion(name: string, condition: AnalyzedPlace -> bool)

  const WebsiteCreation: string := "Cria\U{e7}\U{e3}o de Website"
  const ListingUpdate: string := "Atualiza\U{e7}\U{e3}o do Cadastro no Google Meu Neg\U{f3}cio"
  const SatisfactionConsulting: string := "Consultoria em Estrat\U{e9}gias para Satisfa\U{e7}\U{e3}o de Clientes"
  const DigitalMarketing: string := "Alavancagem de Neg\U{f3}cio com Marketing Digital"

  /** `!xs?.length`: the list is absent or empty. */
  predicate NoEntries<T>(xs: Option<seq<T>>)
  {
    xs.None? || |xs.value| == 0
  }

  /** `xs?.length < n`: an absent list compares as undefined, so the test is false. */
  predicate FewerThan<T>(xs: Option<seq<T>>, n: nat)
  {
    xs.Some? && |xs.value| < n
  }

  /** `x < k` for a number that may be undefined. */
  predicate Below(x: Option<real>, k: real)
  {
    x.Some? && x.value < k
  }

  /** `!place.result.website` */
  predicate LacksWebsite(p: AnalyzedPlace)
  {
    !StringTruthy(p.result.website)
  }

  /** The condition of the listing-update rule: some basic listing information is missing, or the overall score is below 70. */
  predicate ListingIncomplete(p: AnalyzedPlace)
  {
    var r := p.result;
    || !Present(r.openingHours)
    || !StringTruthy(r.formattedPhoneNumber)
    || NoEntries(r.photos)
    || !StringTruthy(r.formattedAddress)
    || FewerThan(r.types, 3)
    || p.overall.score < 70.0
  }

  /** `place.result.rating < 3.5` */
  predicate LowRating(p: AnalyzedPlace)
  {
    Below(p.result.rating, 3.5)
  }

  /** `place.result.reviews?.length < 5` */
  predicate FewReviews(p: AnalyzedPlace)
  {
    FewerThan(p.result.reviews, 5)
  }

  /** The rule list, in declaration order. */
  const ServiceSuggestions: seq<ServiceSuggestion> := [
    ServiceSuggestion(WebsiteCreation, LacksWebsite),
    ServiceSuggestion(ListingUpdate, ListingIncomplete),
    ServiceSuggestion(SatisfactionConsulting, LowRating),
    ServiceSuggestion(DigitalMarketing, FewReviews)
  ]

  function Names(rules: seq<ServiceSuggestion>): (r: seq<string>)
    ensures |r| == |rules|
    ensures forall i :: 0 <= i < |rules| ==> r[i] == rules[i].name
  {
    if rules == [] then [] else [rules[0].name] + Names(rules[1..])
  }

  /** `a` is obtained from `b` by deleting elements. */
  ghost predicate IsSubsequence<T>(a: seq<T>, b: seq<T>)
    decreases |b|
  {
    if a == [] then true
    else if b == [] then false
    else if a[0] == b[0] then IsSubsequence(a[1..], b[1..])
    else IsSubsequence(a, b[1..])
  }

  predicate NoDuplicates<T(==)>(s: seq<T>)
  {
    forall i, j :: 0 <= i < j < |s| ==> s[i] != s[j]
  }

  /**
   * `rules.filter(s => s.condition(place)).map(s => s.name)`: the names of
   * the rules whose condition holds, in the order of the rules.
   */
  function Suggest(rules: seq<ServiceSuggestion>, p: AnalyzedPlace): (r: seq<string>)
    ensures |r| <= |rules|
  {
    if rules == [] then []
    else (if rules[0].condition(p) then [rules[0].name] else []) + Suggest(rules[1..], p)
  }

  /** A name is suggested exactly when some rule of that name holds. */
  lemma {:induction false} SuggestMembers(rules: seq<ServiceSuggestion>, p: AnalyzedPlace)
    ensures forall n :: n in Suggest(rules, p) <==> exists i :: 0 <= i < |rules| && rules[i].name == n && rules[i].condition(p)
  {
    if rules != [] {
      SuggestMembers(rules[1..], p);
      assert forall i :: 1 <= i < |rules| ==> rules[i] == rules[1..][i - 1];
      forall n | exists i :: 0 <= i < |rules| && rules[i].name == n && rules[i].condition(p)
        ensures n in Suggest(rules, p)
      {
        var i :| 0 <= i < |rules| && rules[i].name == n && rules[i].condition(p);
        if i > 0 {
          assert rules[1..][i - 1] == rules[i];
        }
      }
    }
  }

  /** The suggestions keep the order of the rules: they are a subsequence of the rule names. */
  lemma {:induction false} SuggestSubsequence(rules: seq<ServiceSuggestion>, p: AnalyzedPlace)
    ensures IsSubsequence(Suggest(rules, p), Names(rules))
  {
    if rules != [] {
      SuggestSubsequence(rules[1..], p);
      var rest := Suggest(rules[1..], p);
      assert Names(rules)[1..] == Names(rules[1..]);
      if rules[0].condition(p) {
        assert ([rules[0].name] + rest)[1..] == rest;
      } else {
        assert [] + rest == rest;
        SubsequenceOfTail(rest, Names(rules));
      }
    }
  }

  /** A subsequence of the tail of `b` is a subsequence of `b`. */
  lemma {:induction false} SubsequenceOfTail<T>(a: seq<T>, b: seq<T>)
    requires b != [] && IsSubsequence(a, b[1..])
    ensures IsSubsequence(a, b)
    decreases |b|, 1
  {
    if a != [] && a[0] == b[0] {
      DropFirst(a, b[1..]);
    }
  }

  /** Dropping the first element of a subsequence keeps it a subsequence. */
  lemma {:induction false} DropFirst<T>(a: seq<T>, c: seq<T>)
    requires a != [] && IsSubsequence(a, c)
    ensures IsSubsequence(a[1..], c)
    decreases |c|, 2
  {
    if a[0] != c[0] {
      DropFirst(a, c[1..]);
    }
    SubsequenceOfTail(a[1..], c);
  }

  /** `suggestServices`: the rule engine applied to the fixed rule list. */
  function SuggestServices(p: AnalyzedPlace): seq<string>
  {
    Suggest(ServiceSuggestions, p)
  }

  /** When the rule names are distinct, no name is suggested twice. */
  lemma {:induction false} SuggestNoDuplicates(rules: seq<ServiceSuggestion>, p: AnalyzedPlace)
    requires NoDuplicates(Names(rules))
    ensures NoDuplicates(Suggest(rules, p))
    decreases |rules|
  {
    if rules != [] {
      assert Names(rules)[1..] == Names(rules[1..]);
      SuggestNoDuplicates(rules[1..], p);
      SuggestMembers(rules[1..], p);
      var rest := Suggest(rules[1..], p);
      if rules[0].condition(p) {
        forall n | n in rest ensures n != rules[0].name {
          var i :| 0 <= i < |rules[1..]| && rules[1..][i].name == n && rules[1..][i].condition(p);
          assert Names(rules)[i + 1] == n;
        }
        var r := [rules[0].name] + rest;
        forall i, j | 0 <= i < j < |r| ensures r[i] != r[j] {
          if i == 0 {
            assert r[j] == rest[j - 1] && r[j] in rest;
          } else {
            assert r[i] == rest[i - 1] && r[j] == rest[j - 1];
          }
        }
      }
    }
  }

  /**
   * The suggestions for a place, written out rule by rule: exactly the names
   * of the rules that hold, in declaration order, each at most once.
   */
  lemma SuggestServicesExact(p: AnalyzedPlace)
    ensures SuggestServices(p) ==
      (if LacksWebsite(p) then [WebsiteCreation] else []) +
      (if ListingIncomplete(p) then [ListingUpdate] else []) +
      (if LowRating(p) then [SatisfactionConsulting] else []) +
      (if FewReviews(p) then [DigitalMarketing] else [])
  {
    var r0, r1, r2, r3 := ServiceSuggestions[0], ServiceSuggestions[1], ServiceSuggestions[2], ServiceSuggestions[3];
    assert ServiceSuggestions[1..] == [r1, r2, r3];
    assert [r1, r2, r3][1..] == [r2, r3];
    assert [r2, r3][1..] == [r3];
    assert [r3][1..] == [];
    SuggestCons([r3], p);
    SuggestCons([r2, r3], p);
    SuggestCons([r1, r2, r3], p);
    SuggestCons(ServiceSuggestions, p);
  }

  /** The suggestions keep the declaration order of the rules and name each service at most once. */
  lemma SuggestServicesShape(p: AnalyzedPlace)
    ensures NoDuplicates(SuggestServices(p))
    ensures IsSubsequence(SuggestServices(p), [WebsiteCreation, ListingUpdate, SatisfactionConsulting, DigitalMarketing])
  {
    assert Names(ServiceSuggestions) == [WebsiteCreation, ListingUpdate, SatisfactionConsulting, DigitalMarketing];
    SuggestNoDuplicates(ServiceSuggestions, p);
    SuggestSubsequence(ServiceSuggestions, p);
  }

  /** One step of the filter: the first rule contributes its name when its condition holds. */
  lemma SuggestCons(rules: seq<ServiceSuggestion>, p: AnalyzedPlace)
    requires rules != []
    ensures Suggest(rules, p) == (if rules[0].condition(p) then [rules[0].name] else []) + Suggest(rules[1..], p)
  {
  }

  /** The website rule is suggested exactly when the website is absent or empty. */
  lemma WebsiteRule(p: AnalyzedPlace)
    ensures WebsiteCreation in SuggestServices(p) <==>
      (p.result.website.None? || p.result.website == Some(""))
  {
    SuggestServicesExact(p);
  }

  /**
   * The listing-update rule is suggested exactly when phone, opening hours or
   * address is missing, photos are missing or empty, fewer than 3 types are
   * listed, or the overall score is below 70.
   */
  lemma ListingRule(p: AnalyzedPlace)
    ensures ListingUpdate in SuggestServices(p) <==>
      var r := p.result;
      || r.formattedPhoneNumber.None? || r.formattedPhoneNumber == Some("")
      || r.openingHours.None? || !Truthy(r.openingHours.value)
      || r.formattedAddress.None? || r.formattedAddress == Some("")
      || r.photos.None? || r.photos == Some([])
      || (r.types.Some? && |r.types.value| < 3)
      || p.overall.score < 70.0
  {
    SuggestServicesExact(p);
  }

  /** The consulting rule needs a rating that is present and below 3.5: an absent rating suggests nothing. */
  lemma RatingRule(p: AnalyzedPlace)
    ensures SatisfactionConsulting in SuggestServices(p) <==>
      p.result.rating.Some? && p.result.rating.value < 3.5
  {
    SuggestServicesExact(p);
  }

  /** The marketing rule needs a review list that is present and has fewer than 5 entries. */
  lemma ReviewsRule(p: AnalyzedPlace)
    ensures DigitalMarketing in SuggestServices(p) <==>
      p.result.reviews.Some? && |p.result.reviews.value| < 5
  {
    SuggestServicesExact(p);
  }

  /** A lead with no website and no phone number gets both the website and the listing-update suggestion, whatever its other fields. */
  lemma NoWebsiteNoPhone(p: AnalyzedPlace)
    requires p.result.website.None? && p.result.formattedPhoneNumber.None?
    ensures |SuggestServices(p)| >= 2
    ensures SuggestServices(p)[0] == WebsiteCreation && SuggestServices(p)[1] == ListingUpdate
  {
    SuggestServicesExact(p);
  }
}
