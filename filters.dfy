/**
 * The query filters of the recipe and ingredient lists. A filter whose bound value is empty is
 * not applied; the others narrow the query set they are given.
 */
module Filters {
  import opened Base
  import opened Collections
  import opened RecipesModels
  import opened Text

  /** The slugs of the tags linked to recipe `r`. */
  function TagSlugs(tags: map<TagId, Tag>, links: set<(RecipeId, TagId)>, r: RecipeId): set<string> {
    set p | p in links && p.0 == r && p.1 in tags :: tags[p.1].slug
  }

  /** Some tag of `r` has a slug among the requested values. */
  predicate MatchesTags(tags: map<TagId, Tag>, links: set<(RecipeId, TagId)>, values: seq<string>, r: Recipe) {
    exists i :: 0 <= i < |values| && values[i] in TagSlugs(tags, links, r.id)
  }

  function TagsMatcher(tags: map<TagId, Tag>, links: set<(RecipeId, TagId)>, values: seq<string>): Recipe -> bool {
    (r: Recipe) => MatchesTags(tags, links, values, r)
  }

  /**
   * The tags filter: every `tags` value of the query is used, a recipe is kept when any of its
   * tag slugs is among them, and the result is made distinct.
   */
  function FilterByTags(qs: seq<Recipe>, tags: map<TagId, Tag>, links: set<(RecipeId, TagId)>, values: seq<string>): (r: seq<Recipe>)
    ensures forall x :: x in r <==> x in qs && MatchesTags(tags, links, values, x)
    ensures NoDuplicates(r)
    ensures |r| <= |qs|
  {
    Dedup(Filter(qs, TagsMatcher(tags, links, values)))
  }

  /** The author filter: the recipes whose author id equals the parameter. */
  function FilterByAuthor(qs: seq<Recipe>, author: UserId): (r: seq<Recipe>)
    ensures forall x :: x in r <==> x in qs && x.author == author
    ensures |r| <= |qs|
  {
    Filter(qs, ByAuthor(author))
  }

  /**
   * A filter runs when the value bound to it, the last one given for its name, is non-empty once
   * cleaned: a value of white space only is skipped like an absent one.
   */
  predicate TagsFilterApplies(values: seq<string>) {
    |values| > 0 && Strip(values[|values| - 1]) != ""
  }

  /**
   * The recipe filter set: `tags` first, then `author`; each narrows the result only when it
   * applies, so a recipe is kept iff it passes every filter that applies.
   */
  function FilterRecipes(qs: seq<Recipe>, tags: map<TagId, Tag>, links: set<(RecipeId, TagId)>,
                         tagValues: seq<string>, author: Option<UserId>): (r: seq<Recipe>)
    ensures forall x :: x in r <==>
      && x in qs
      && (TagsFilterApplies(tagValues) ==> MatchesTags(tags, links, tagValues, x))
      && (author.Some? ==> x.author == author.value)
    ensures |r| <= |qs|
  {
    var byTags := if TagsFilterApplies(tagValues) then FilterByTags(qs, tags, links, tagValues) else qs;
    if author.Some? then FilterByAuthor(byTags, author.value) else byTags
  }

  /** The recipe filters keep the default listing order and, given distinct rows, yield distinct rows. */
  lemma FilterRecipesKeepsOrder(qs: seq<Recipe>, tags: map<TagId, Tag>, links: set<(RecipeId, TagId)>,
                                tagValues: seq<string>, author: Option<UserId>)
    requires ListedByIdDesc(qs)
    ensures ListedByIdDesc(FilterRecipes(qs, tags, links, tagValues, author))
    ensures NoDuplicates(FilterRecipes(qs, tags, links, tagValues, author))
  {
    var byTags := qs;
    if TagsFilterApplies(tagValues) {
      FilterPairwise(qs, TagsMatcher(tags, links, tagValues), IdAbove);
      DedupPairwise(Filter(qs, TagsMatcher(tags, links, tagValues)), IdAbove);
      byTags := FilterByTags(qs, tags, links, tagValues);
    }
    if author.Some? {
      FilterPairwise(byTags, ByAuthor(author.value), IdAbove);
    }
    var r := FilterRecipes(qs, tags, links, tagValues, author);
    forall i, j | 0 <= i < j < |r| ensures r[i] != r[j] {
      assert IdAbove(r[i], r[j]);
    }
  }

  /** `?tags=%20` is skipped as blank: every recipe stays. */
  lemma BlankTagsValueFiltersNothing(qs: seq<Recipe>, tags: map<TagId, Tag>, links: set<(RecipeId, TagId)>)
    ensures FilterRecipes(qs, tags, links, [" "], None) == qs
  {
    assert !TagsFilterApplies([" "]) by {
      assert IsSpace([" "][0][0]);
    }
  }

  function NamePrefix(value: string): Ingredient -> bool {
    (i: Ingredient) => value <= i.name
  }

  /** The ingredient name filter: the ingredients whose name starts with the value, distinct. */
  function FilterByName(qs: seq<Ingredient>, value: string): (r: seq<Ingredient>)
    ensures forall x :: x in r <==> x in qs && value <= x.name
    ensures NoDuplicates(r)
    ensures |r| <= |qs|
  {
    Dedup(Filter(qs, NamePrefix(value)))
  }

  /**
   * The ingredient filter set: the `name` parameter is cleaned, and the name filter applies to
   * the cleaned value when it is non-empty.
   */
  function FilterIngredients(qs: seq<Ingredient>, param: string): (r: seq<Ingredient>)
    ensures forall x :: x in r <==> x in qs && Strip(param) <= x.name
    ensures Strip(param) != "" ==> NoDuplicates(r)
    ensures (forall i :: 0 <= i < |param| ==> IsSpace(param[i])) ==> r == qs
  {
    var name := Strip(param);
    if name == "" then qs else FilterByName(qs, name)
  }
}
