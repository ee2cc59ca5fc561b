/**
 * The columns of the application's tables: every property a record builder
 * writes, by the name it has in the source's object literals and in the
 * untyped input objects.
 */
module Fields {

  datatype Field =
    | Id | ProjectId | Type | Description | Date | CreatedAt | Duration | Url | Tags
    | Visibility | Title | Name | Status | Category | StartDate | LastUpdated | Progress
    | TechStack | NextSteps | Notes | GithubUrl | LiveUrl | Summary | CreatedDate
    | PublishedDate | WordCount | Content | ExternalUrl | Author | StartedDate | CompletedDate
    | Format | Rating | CoverUrl | PurchaseUrl | DateAdded | LastAccessed | IsFavorite | Amount
    | Target | Period | EndDate | Prompt | DateCreated | LastUsed | ExampleResponse

  /** The property name of a column in an input object. */
  function Key(f: Field): string {
    match f
    case Id => "id"
    case ProjectId => "projectId"
    case Type => "type"
    case Description => "description"
    case Date => "date"
    case CreatedAt => "createdAt"
    case Duration => "duration"
    case Url => "url"
    case Tags => "tags"
    case Visibility => "visibility"
    case Title => "title"
    case Name => "name"
    case Status => "status"
    case Category => "category"
    case StartDate => "startDate"
    case LastUpdated => "lastUpdated"
    case Progress => "progress"
    case TechStack => "techStack"
    case NextSteps => "nextSteps"
    case Notes => "notes"
    case GithubUrl => "githubUrl"
    case LiveUrl => "liveUrl"
    case Summary => "summary"
    case CreatedDate => "createdDate"
    case PublishedDate => "publishedDate"
    case WordCount => "wordCount"
    case Content => "content"
    case ExternalUrl => "externalUrl"
    case Author => "author"
    case StartedDate => "startedDate"
    case CompletedDate => "completedDate"
    case Format => "format"
    case Rating => "rating"
    case CoverUrl => "coverUrl"
    case PurchaseUrl => "purchaseUrl"
    case DateAdded => "dateAdded"
    case LastAccessed => "lastAccessed"
    case IsFavorite => "isFavorite"
    case Amount => "amount"
    case Target => "target"
    case Period => "period"
    case EndDate => "endDate"
    case Prompt => "prompt"
    case DateCreated => "dateCreated"
    case LastUsed => "lastUsed"
    case ExampleResponse => "exampleResponse"
  }

  /** Every column. */
  const All: set<Field> := {
      Id, ProjectId, Type, Description, Date, CreatedAt, Duration, Url, Tags, Visibility,
      Title, Name, Status, Category, StartDate, LastUpdated, Progress, TechStack, NextSteps,
      Notes, GithubUrl, LiveUrl, Summary, CreatedDate, PublishedDate, WordCount, Content,
      ExternalUrl, Author, StartedDate, CompletedDate, Format, Rating, CoverUrl,
      PurchaseUrl, DateAdded, LastAccessed, IsFavorite, Amount, Target, Period, EndDate,
      Prompt, DateCreated, LastUsed, ExampleResponse
    }

  /** Every column is one of the listed ones; a proof step for table-wide quantifiers. */
  lemma InAll(f: Field)
    ensures f in All
  {
  }
}
