/** The audience heuristic of the analysis service: a category-name table, six
    constant demographic tables chosen by category id, and the generative
    refinement that falls back to those tables on any failure. */
module Analysis {
  import opened Wrappers
  import Strings

  datatype GenderShare = GenderShare(name: string, value: int, color: string)
  datatype AgeShare = AgeShare(name: string, value: int)
  datatype Demographics = Demographics(gender: seq<GenderShare>, age: seq<AgeShare>, categoryName: string)

  /** The sixteen category ids the dashboard names. */
  const CategoryMap: map<string, string> := map[
    "1" := "Film & Animation",
    "2" := "Autos & Vehicles",
    "10" := "Music",
    "15" := "Pets & Animals",
    "17" := "Sports",
    "18" := "Short Movies",
    "19" := "Travel & Events",
    "20" := "Gaming",
    "22" := "People & Blogs",
    "23" := "Comedy",
    "24" := "Entertainment",
    "25" := "News & Politics",
    "26" := "Howto & Style",
    "27" := "Education",
    "28" := "Science & Technology",
    "29" := "Nonprofits & Activism"
  ]

  const Unknown: string := "Unknown"

  /** The display name of a category; ids outside the table read "Unknown", and no listed name does. */
  function GetCategoryName(categoryId: string): (name: string)
    ensures name != ""
    ensures categoryId in CategoryMap ==> name == CategoryMap[categoryId]
    ensures name == Unknown <==> categoryId !in CategoryMap
  {
    if categoryId in CategoryMap && CategoryMap[categoryId] != "" then CategoryMap[categoryId] else Unknown
  }

  const Male: string := "남성"
  const Female: string := "여성"
  const MaleColor: string := "#3B82F6"
  const FemaleColor: string := "#FF4B2B"

  /** Age brackets of every table but the one for id "1". */
  const StandardBrackets: seq<string> := ["10대", "20대", "30대", "40대", "50대", "60대+"]
  /** Age brackets of the table for id "1", which counts young children and parents. */
  const KidsBrackets: seq<string> := ["10세 미만", "10대", "20대", "30대(부모)", "40대(부모)", "50대+"]

  /** The five ids whose tables differ from the default. */
  const OverriddenIds: set<string> := {"20", "28", "26", "1", "25"}

  function GenderSplit(male: int, female: int): seq<GenderShare>
  {
    [GenderShare(Male, male, MaleColor), GenderShare(Female, female, FemaleColor)]
  }

  function AgeTable(brackets: seq<string>, values: seq<int>): (age: seq<AgeShare>)
    requires |brackets| == |values|
    ensures |age| == |values|
    ensures forall k :: 0 <= k < |age| ==> age[k] == AgeShare(brackets[k], values[k])
  {
    seq(|brackets|, k requires 0 <= k < |brackets| => AgeShare(brackets[k], values[k]))
  }

  function Sum(xs: seq<int>): int
  {
    if xs == [] then 0 else xs[0] + Sum(xs[1..])
  }

  function GenderValues(d: Demographics): (vs: seq<int>)
    ensures |vs| == |d.gender|
  {
    seq(|d.gender|, k requires 0 <= k < |d.gender| => d.gender[k].value)
  }

  function AgeValues(d: Demographics): (vs: seq<int>)
    ensures |vs| == |d.age|
  {
    seq(|d.age|, k requires 0 <= k < |d.age| => d.age[k].value)
  }

  function AgeLabels(d: Demographics): (ls: seq<string>)
    ensures |ls| == |d.age|
  {
    seq(|d.age|, k requires 0 <= k < |d.age| => d.age[k].name)
  }

  /** The shape every heuristic table has: male then female with their fixed colours, and six age brackets. */
  ghost predicate HasTableShape(d: Demographics)
  {
    && |d.gender| == 2
    && d.gender[0].name == Male && d.gender[0].color == MaleColor
    && d.gender[1].name == Female && d.gender[1].color == FemaleColor
    && |d.age| == 6
  }

  /** The (male, female) shares and the six age shares of the table for `categoryId`. */
  function Table(categoryId: string): (int, int, seq<int>)
  {
    match categoryId
    case "20" => (78, 22, [35, 40, 15, 6, 3, 1])
    case "28" => (85, 15, [10, 45, 30, 10, 4, 1])
    case "26" => (12, 88, [30, 45, 15, 7, 2, 1])
    case "1" => (45, 55, [40, 10, 5, 25, 15, 5])
    case "25" => (65, 35, [2, 8, 15, 25, 30, 20])
    case _ => (50, 50, [15, 25, 25, 15, 12, 8])
  }

  /** Every table's gender shares and age shares each add up to 100. */
  lemma TableTotals(categoryId: string)
    ensures |Table(categoryId).2| == 6
    ensures Table(categoryId).0 + Table(categoryId).1 == 100
    ensures Sum(Table(categoryId).2) == 100
  {
  }

  /** The heuristic audience estimate for a category: it carries the category's display name,
      always has the table shape, and both its gender and its age shares add up to 100.
      Every id outside the five overridden ones gets the 50/50, 15/25/25/15/12/8 default. */
  function PredictAudience(categoryId: string): (d: Demographics)
    ensures d.categoryName == GetCategoryName(categoryId)
    ensures HasTableShape(d)
    ensures Sum(GenderValues(d)) == 100 && Sum(AgeValues(d)) == 100
    ensures AgeLabels(d) == if categoryId == "1" then KidsBrackets else StandardBrackets
    ensures categoryId !in OverriddenIds ==>
      GenderValues(d) == [50, 50] && AgeValues(d) == [15, 25, 25, 15, 12, 8]
  {
    var (male, female, ages) := Table(categoryId);
    var brackets := if categoryId == "1" then KidsBrackets else StandardBrackets;
    var d := Demographics(GenderSplit(male, female), AgeTable(brackets, ages), GetCategoryName(categoryId));
    assert GenderValues(d) == [male, female];
    assert AgeValues(d) == ages;
    TableTotals(categoryId);
    assert [male, female][1..] == [female];
    assert Sum([female]) == female;
    assert AgeLabels(d) == brackets;
    d
  }

  /** The estimate's shares are exactly the row of `Table` for the id, in order. */
  lemma TableValues(categoryId: string)
    ensures GenderValues(PredictAudience(categoryId)) == [Table(categoryId).0, Table(categoryId).1]
    ensures AgeValues(PredictAudience(categoryId)) == Table(categoryId).2
  {
    var d := PredictAudience(categoryId);
    assert GenderValues(d) == [d.gender[0].value, d.gender[1].value];
  }

  /** Gaming ("20") and an unlisted id ("999"), end to end. */
  lemma GamingAndUnknownScenarios()
    ensures PredictAudience("20").categoryName == "Gaming"
    ensures PredictAudience("20").gender == [GenderShare(Male, 78, MaleColor), GenderShare(Female, 22, FemaleColor)]
    ensures AgeValues(PredictAudience("20")) == [35, 40, 15, 6, 3, 1]
    ensures PredictAudience("999").categoryName == Unknown
    ensures PredictAudience("999").gender == [GenderShare(Male, 50, MaleColor), GenderShare(Female, 50, FemaleColor)]
    ensures AgeValues(PredictAudience("999")) == [15, 25, 25, 15, 12, 8]
  {
  }

  /** The values a refinement request carries: the title, at most the first 500 characters of the
      description, and the heuristic's category name. The fixed instruction text is not modelled. */
  datatype AudiencePrompt = AudiencePrompt(title: string, descriptionExcerpt: string, baseCategoryName: string)

  const DescriptionLimit: nat := 500

  function AudiencePromptFor(title: string, description: string, categoryId: string): (p: AudiencePrompt)
    ensures p.title == title
    ensures p.descriptionExcerpt <= description
    ensures |p.descriptionExcerpt| == Strings.Min(DescriptionLimit, |description|)
    ensures p.baseCategoryName == GetCategoryName(categoryId)
  {
    AudiencePrompt(title, Strings.Truncate(description, DescriptionLimit), PredictAudience(categoryId).categoryName)
  }

  /** The refined audience estimate. `generate` answers a request with the reply text, or None when
      the call fails; `parse` reads a reply as a document, or None when parsing throws. Without a
      key, or on any failure, the result is the heuristic table; otherwise it is the parsed
      document, forwarded without any check of its shape or sums. */
  function PredictAudienceWithAI(
    apiKey: bool, title: string, description: string, categoryId: string,
    generate: AudiencePrompt -> Option<string>, parse: string -> Option<Demographics>): (d: Demographics)
    ensures !apiKey ==> d == PredictAudience(categoryId)
    ensures d != PredictAudience(categoryId) ==>
      apiKey && generate(AudiencePromptFor(title, description, categoryId)).Some?
      && parse(generate(AudiencePromptFor(title, description, categoryId)).value) == Some(d)
    ensures (apiKey && generate(AudiencePromptFor(title, description, categoryId)).Some?
      && parse(generate(AudiencePromptFor(title, description, categoryId)).value).Some?) ==>
      d == parse(generate(AudiencePromptFor(title, description, categoryId)).value).value
  {
    var basePrediction := PredictAudience(categoryId);
    if !apiKey then basePrediction
    else
      match generate(AudiencePromptFor(title, description, categoryId))
      case None => basePrediction
      case Some(text) =>
        match parse(text)
        case None => basePrediction
        case Some(data) => data
  }

  /** A failed call or an unparseable reply yields exactly the heuristic table. */
  lemma AIFailureFallsBack(
    title: string, description: string, categoryId: string,
    generate: AudiencePrompt -> Option<string>, parse: string -> Option<Demographics>)
    requires
      var reply := generate(AudiencePromptFor(title, description, categoryId));
      reply.None? || parse(reply.value).None?
    ensures PredictAudienceWithAI(true, title, description, categoryId, generate, parse) == PredictAudience(categoryId)
  {
  }

  /** Without a key neither the title, nor the description, nor the generation service matters. */
  lemma NoKeyIgnoresInputs(
    title1: string, description1: string, title2: string, description2: string, categoryId: string,
    generate1: AudiencePrompt -> Option<string>, generate2: AudiencePrompt -> Option<string>,
    parse: string -> Option<Demographics>)
    ensures PredictAudienceWithAI(false, title1, description1, categoryId, generate1, parse)
         == PredictAudienceWithAI(false, title2, description2, categoryId, generate2, parse)
  {
  }

  /** Only the first 500 characters of the description can influence the refined estimate. */
  lemma OnlyDescriptionPrefixMatters(
    apiKey: bool, title: string, description1: string, description2: string, categoryId: string,
    generate: AudiencePrompt -> Option<string>, parse: string -> Option<Demographics>)
    requires |description1| >= DescriptionLimit && |description2| >= DescriptionLimit
    requires description1[..DescriptionLimit] == description2[..DescriptionLimit]
    ensures PredictAudienceWithAI(apiKey, title, description1, categoryId, generate, parse)
         == PredictAudienceWithAI(apiKey, title, description2, categoryId, generate, parse)
  {
    assert AudiencePromptFor(title, description1, categoryId) == AudiencePromptFor(title, description2, categoryId);
  }

  /** A successful reply is forwarded even when its shares do not add up to 100 and it has no age brackets. */
  lemma AIResultIsNotValidated(title: string, description: string, categoryId: string)
    ensures
      var bogus := Demographics(GenderSplit(90, 90), [], "?");
      PredictAudienceWithAI(true, title, description, categoryId, _ => Some("{}"), _ => Some(bogus)) == bogus
      && Sum(GenderValues(bogus)) != 100
  {
    var bogus := Demographics(GenderSplit(90, 90), [], "?");
    assert GenderValues(bogus) == [90, 90];
    assert [90, 90][1..] == [90];
    assert Sum([90]) == 90;
  }
}
