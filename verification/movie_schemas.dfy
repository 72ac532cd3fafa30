/**
 * The request schemas of the catalogue endpoints: the bounds a comment,
 * a reply and a star rate must satisfy, the like/dislike choice, and the
 * partial movie update. A parse function returns None where request
 * validation would refuse the body.
 */
module MovieSchemas {
  import opened Common
  import opened MovieModel

  /** The longest comment or reply text a request may carry. */
  const MaxTextLength: nat := 500

  /** `CommentCreateSchema`. */
  datatype CommentCreate = CommentCreate(text: string)

  function ParseCommentCreate(text: string): (r: Option<CommentCreate>)
    ensures r.Some? <==> |text| <= MaxTextLength
    ensures r.Some? ==> r.value.text == text
  {
    if |text| <= MaxTextLength then Some(CommentCreate(text)) else None
  }

  /** A field of a request body: left out of the JSON, or given (possibly as null). */
  datatype Input<T> = Unset | Given(value: T)

  /** `MovieCommentReplyCreate`: `votes` may be null, and is 0 when the body leaves it out. */
  datatype ReplyCreate = ReplyCreate(votes: Option<int>, commentId: nat, userProfileId: nat, text: string)

  function ParseReplyCreate(votes: Input<Option<int>>, commentId: nat, userProfileId: nat, text: string): (r: Option<ReplyCreate>)
    ensures r.Some? <==> |text| <= MaxTextLength
    ensures r.Some? && votes.Unset? ==> r.value.votes == Some(0)
    ensures r.Some? && votes.Given? ==> r.value.votes == votes.value
    ensures r.Some? ==> r.value.commentId == commentId && r.value.userProfileId == userProfileId && r.value.text == text
  {
    if |text| > MaxTextLength then None
    else
      var v := match votes
        case Unset => Some(0)
        case Given(x) => x;
      Some(ReplyCreate(v, commentId, userProfileId, text))
  }

  /** `MovieRatingFromZeroToTen`. */
  datatype StarRate = StarRate(rate: int)

  function ParseStarRate(rate: int): (r: Option<StarRate>)
    ensures r.Some? <==> 0 <= rate <= 10
    ensures r.Some? ==> r.value.rate == rate
  {
    if 0 <= rate <= 10 then Some(StarRate(rate)) else None
  }

  /** `LikeOrDislikeEnum`, the choice a like/dislike request carries. */
  datatype LikeOrDislike = Like | Dislike

  function LikeOrDislikeValue(c: LikeOrDislike): string
  {
    match c
    case Like => "LIKE"
    case Dislike => "DISLIKE"
  }

  /** The request values that validate: exactly "LIKE" and "DISLIKE". */
  function ParseLikeOrDislike(s: string): (r: Option<LikeOrDislike>)
    ensures r.Some? <==> s == "LIKE" || s == "DISLIKE"
    ensures r.Some? ==> LikeOrDislikeValue(r.value) == s
  {
    if s == "LIKE" then Some(Like)
    else if s == "DISLIKE" then Some(Dislike)
    else None
  }

  lemma LikeOrDislikeRoundTrip(c: LikeOrDislike)
    ensures ParseLikeOrDislike(LikeOrDislikeValue(c)) == Some(c)
  {
  }

  /**
   * The request spells the choice in upper case and the column in lower
   * case: no request value equals a stored value, and the stored spellings
   * do not validate as requests.
   */
  lemma RatingSpellingsDiffer(c: LikeOrDislike, stored: StoredRating)
    ensures LikeOrDislikeValue(c) != StoredRatingValue(stored)
    ensures ParseLikeOrDislike(StoredRatingValue(stored)).None?
  {
    assert LikeOrDislikeValue(c)[0] != StoredRatingValue(stored)[0];
  }

  /**
   * The rating handler sends the request's own value to the column, and
   * the column has no member of that spelling: the insert is refused.
   */
  lemma ChoiceRefusedByColumn(c: LikeOrDislike)
    ensures ParseStoredRating(LikeOrDislikeValue(c)).None?
  {
    RatingSpellingsDiffer(c, StoredLike);
    RatingSpellingsDiffer(c, StoredDislike);
  }

  /**
   * `MovieCreateSchema`: every column of a movie but its image, plus the
   * ids of its certification, genres, stars and directors. The price is in
   * cents and may be left out.
   */
  datatype MovieCreate = MovieCreate(
    name: string,
    year: int,
    time: int,
    imdb: real,
    image: Option<string>,
    votes: int,
    metaScore: Option<real>,
    gross: Option<real>,
    description: string,
    price: Option<nat>,
    certificationId: nat,
    genreIds: seq<nat>,
    starIds: seq<nat>,
    directorIds: seq<nat>)

  /**
   * `MovieUpdateScheme`: every field is optional and None by default. The
   * price is in cents; the id lists are kept as given, duplicates and all.
   */
  datatype MovieUpdate = MovieUpdate(
    name: Option<string>,
    year: Option<int>,
    time: Option<int>,
    imdb: Option<real>,
    image: Option<string>,
    metaScore: Option<real>,
    gross: Option<real>,
    description: Option<string>,
    price: Option<nat>,
    certificationId: Option<nat>,
    genreIds: Option<seq<nat>>,
    starIds: Option<seq<nat>>,
    directorIds: Option<seq<nat>>)

  /** The update body `{}`: every field takes its default. */
  const EmptyUpdate := MovieUpdate(None, None, None, None, None, None, None, None, None, None, None, None, None)

  /** One (field, value) item of `model_dump(exclude_unset=True, exclude_none=True)`. */
  datatype FieldValue =
    | NameField(name: string)
    | YearField(year: int)
    | TimeField(time: int)
    | ImdbField(imdb: real)
    | ImageField(image: string)
    | MetaScoreField(metaScore: real)
    | GrossField(gross: real)
    | DescriptionField(description: string)
    | PriceField(price: nat)
    | CertificationField(certificationId: nat)
    | GenreIdsField(genreIds: seq<nat>)
    | StarIdsField(starIds: seq<nat>)
    | DirectorIdsField(directorIds: seq<nat>)

  /** The three relationship fields that the field loop skips. */
  predicate IsIdListField(f: FieldValue)
  {
    f.GenreIdsField? || f.StarIdsField? || f.DirectorIdsField?
  }

  /** The dump item of each field: none when the field is None, else one. */
  function NameItem(u: MovieUpdate): seq<FieldValue> { if u.name.Some? then [NameField(u.name.value)] else [] }
  function YearItem(u: MovieUpdate): seq<FieldValue> { if u.year.Some? then [YearField(u.year.value)] else [] }
  function TimeItem(u: MovieUpdate): seq<FieldValue> { if u.time.Some? then [TimeField(u.time.value)] else [] }
  function ImdbItem(u: MovieUpdate): seq<FieldValue> { if u.imdb.Some? then [ImdbField(u.imdb.value)] else [] }
  function ImageItem(u: MovieUpdate): seq<FieldValue> { if u.image.Some? then [ImageField(u.image.value)] else [] }
  function MetaScoreItem(u: MovieUpdate): seq<FieldValue> { if u.metaScore.Some? then [MetaScoreField(u.metaScore.value)] else [] }
  function GrossItem(u: MovieUpdate): seq<FieldValue> { if u.gross.Some? then [GrossField(u.gross.value)] else [] }
  function DescriptionItem(u: MovieUpdate): seq<FieldValue> { if u.description.Some? then [DescriptionField(u.description.value)] else [] }
  function PriceItem(u: MovieUpdate): seq<FieldValue> { if u.price.Some? then [PriceField(u.price.value)] else [] }
  function CertificationItem(u: MovieUpdate): seq<FieldValue> { if u.certificationId.Some? then [CertificationField(u.certificationId.value)] else [] }
  function GenreIdsItem(u: MovieUpdate): seq<FieldValue> { if u.genreIds.Some? then [GenreIdsField(u.genreIds.value)] else [] }
  function StarIdsItem(u: MovieUpdate): seq<FieldValue> { if u.starIds.Some? then [StarIdsField(u.starIds.value)] else [] }
  function DirectorIdsItem(u: MovieUpdate): seq<FieldValue> { if u.directorIds.Some? then [DirectorIdsField(u.directorIds.value)] else [] }

  /**
   * The dump of an update: one item per field that is not None, in the
   * order the schema declares its fields.
   */
  function Dump(u: MovieUpdate): seq<FieldValue>
  {
    FirstColumns(u) + ScoreColumns(u) + SaleColumns(u) + IdLists(u)
  }

  function FirstColumns(u: MovieUpdate): seq<FieldValue>
  {
    NameItem(u) + YearItem(u) + TimeItem(u) + ImdbItem(u) + ImageItem(u)
  }

  function ScoreColumns(u: MovieUpdate): seq<FieldValue>
  {
    MetaScoreItem(u) + GrossItem(u) + DescriptionItem(u)
  }

  function SaleColumns(u: MovieUpdate): seq<FieldValue>
  {
    PriceItem(u) + CertificationItem(u)
  }

  function IdLists(u: MovieUpdate): seq<FieldValue>
  {
    GenreIdsItem(u) + StarIdsItem(u) + DirectorIdsItem(u)
  }

  /** The update gives the field of `f` the value `f` carries. */
  predicate Gives(u: MovieUpdate, f: FieldValue)
  {
    match f
    case NameField(x) => u.name == Some(x)
    case YearField(x) => u.year == Some(x)
    case TimeField(x) => u.time == Some(x)
    case ImdbField(x) => u.imdb == Some(x)
    case ImageField(x) => u.image == Some(x)
    case MetaScoreField(x) => u.metaScore == Some(x)
    case GrossField(x) => u.gross == Some(x)
    case DescriptionField(x) => u.description == Some(x)
    case PriceField(x) => u.price == Some(x)
    case CertificationField(x) => u.certificationId == Some(x)
    case GenreIdsField(x) => u.genreIds == Some(x)
    case StarIdsField(x) => u.starIds == Some(x)
    case DirectorIdsField(x) => u.directorIds == Some(x)
  }

  /** Every item of the dump carries a value the update gives. */
  lemma DumpItemsGiven(u: MovieUpdate, f: FieldValue)
    requires f in Dump(u)
    ensures Gives(u, f)
  {
    var first, score, sale, ids := FirstColumns(u), ScoreColumns(u), SaleColumns(u), IdLists(u);
    assert Dump(u) == first + score + sale + ids;
    if f in first {
      var a, b, c, d, e := NameItem(u), YearItem(u), TimeItem(u), ImdbItem(u), ImageItem(u);
      assert first == a + b + c + d + e;
      assert f in a || f in b || f in c || f in d || f in e;
    } else if f in score {
      var a, b, c := MetaScoreItem(u), GrossItem(u), DescriptionItem(u);
      assert score == a + b + c;
      assert f in a || f in b || f in c;
    } else if f in sale {
      var a, b := PriceItem(u), CertificationItem(u);
      assert sale == a + b;
      assert f in a || f in b;
    } else {
      assert f in ids;
      var a, b, c := GenreIdsItem(u), StarIdsItem(u), DirectorIdsItem(u);
      assert ids == a + b + c;
      assert f in a || f in b || f in c;
    }
  }

  /** Every field the update gives appears in the dump with its value. */
  lemma GivenFieldDumped(u: MovieUpdate, f: FieldValue)
    requires Gives(u, f)
    ensures f in Dump(u)
  {
    var first, score, sale, ids := FirstColumns(u), ScoreColumns(u), SaleColumns(u), IdLists(u);
    assert Dump(u) == first + score + sale + ids;
    match f
    case NameField(_) => assert f in NameItem(u); assert f in first;
    case YearField(_) => assert f in YearItem(u); assert f in first;
    case TimeField(_) => assert f in TimeItem(u); assert f in first;
    case ImdbField(_) => assert f in ImdbItem(u); assert f in first;
    case ImageField(_) => assert f in ImageItem(u); assert f in first;
    case MetaScoreField(_) => assert f in MetaScoreItem(u); assert f in score;
    case GrossField(_) => assert f in GrossItem(u); assert f in score;
    case DescriptionField(_) => assert f in DescriptionItem(u); assert f in score;
    case PriceField(_) => assert f in PriceItem(u); assert f in sale;
    case CertificationField(_) => assert f in CertificationItem(u); assert f in sale;
    case GenreIdsField(_) => assert f in GenreIdsItem(u); assert f in ids;
    case StarIdsField(_) => assert f in StarIdsItem(u); assert f in ids;
    case DirectorIdsField(_) => assert f in DirectorIdsItem(u); assert f in ids;
  }

  /**
   * The dump holds exactly the fields the update gives, None being left
   * out; the empty body dumps nothing.
   */
  lemma DumpIsGivenFields(u: MovieUpdate)
    ensures forall f :: f in Dump(u) <==> Gives(u, f)
    ensures Dump(EmptyUpdate) == []
  {
    forall f
      ensures f in Dump(u) <==> Gives(u, f)
    {
      if f in Dump(u) {
        DumpItemsGiven(u, f);
      }
      if Gives(u, f) {
        GivenFieldDumped(u, f);
      }
    }
  }
}
