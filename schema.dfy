/** The eight tables of convex/schema.ts: one record type per table, the
    string-literal unions as enumerations, and the errors the mutations throw. */
module Schema {
  import opened Base

  /** A document id. One counter numbers the documents of every table. */
  type Id = nat

  /** A stored document: its `_id` and its fields. */
  datatype Doc<T> = Doc(id: Id, data: T)

  datatype Plan = Free | Pro | Enterprise

  function PlanLiteral(p: Plan): string {
    match p
    case Free => "free"
    case Pro => "pro"
    case Enterprise => "enterprise"
  }

  /** The validator `v.union(v.literal("free"), ...)`: exactly the three
      literals are accepted. */
  function ParsePlan(s: string): (r: Option<Plan>)
    ensures r.Some? ==> PlanLiteral(r.value) == s
    ensures r.None? ==> forall p :: PlanLiteral(p) != s
  {
    if s == "free" then Some(Free)
    else if s == "pro" then Some(Pro)
    else if s == "enterprise" then Some(Enterprise)
    else None
  }

  datatype HttpMethod = GET | POST

  function MethodLiteral(m: HttpMethod): string {
    match m
    case GET => "GET"
    case POST => "POST"
  }

  function ParseMethod(s: string): (r: Option<HttpMethod>)
    ensures r.Some? ==> MethodLiteral(r.value) == s
    ensures r.None? ==> forall m :: MethodLiteral(m) != s
  {
    if s == "GET" then Some(GET) else if s == "POST" then Some(POST) else None
  }

  datatype SkillStatus = Active | Pending | Disabled

  function SkillStatusLiteral(st: SkillStatus): string {
    match st
    case Active => "active"
    case Pending => "pending"
    case Disabled => "disabled"
  }

  function ParseSkillStatus(s: string): (r: Option<SkillStatus>)
    ensures r.Some? ==> SkillStatusLiteral(r.value) == s
    ensures r.None? ==> forall st :: SkillStatusLiteral(st) != s
  {
    if s == "active" then Some(SkillStatus.Active)
    else if s == "pending" then Some(SkillStatus.Pending)
    else if s == "disabled" then Some(Disabled)
    else None
  }

  datatype TxStatus = Completed | Pending | Failed

  function TxStatusLiteral(st: TxStatus): string {
    match st
    case Completed => "completed"
    case Pending => "pending"
    case Failed => "failed"
  }

  function ParseTxStatus(s: string): (r: Option<TxStatus>)
    ensures r.Some? ==> TxStatusLiteral(r.value) == s
    ensures r.None? ==> forall st :: TxStatusLiteral(st) != s
  {
    if s == "completed" then Some(Completed)
    else if s == "pending" then Some(TxStatus.Pending)
    else if s == "failed" then Some(Failed)
    else None
  }

  datatype WorkforceStatus = Active | Paused | Setup

  function WorkforceStatusLiteral(st: WorkforceStatus): string {
    match st
    case Active => "active"
    case Paused => "paused"
    case Setup => "setup"
  }

  function ParseWorkforceStatus(s: string): (r: Option<WorkforceStatus>)
    ensures r.Some? ==> WorkforceStatusLiteral(r.value) == s
    ensures r.None? ==> forall st :: WorkforceStatusLiteral(st) != s
  {
    if s == "active" then Some(WorkforceStatus.Active)
    else if s == "paused" then Some(WorkforceStatus.Paused)
    else if s == "setup" then Some(Setup)
    else None
  }

  datatype AgentStatus = Active | Idle | Error | Paused

  function AgentStatusLiteral(st: AgentStatus): string {
    match st
    case Active => "active"
    case Idle => "idle"
    case Error => "error"
    case Paused => "paused"
  }

  function ParseAgentStatus(s: string): (r: Option<AgentStatus>)
    ensures r.Some? ==> AgentStatusLiteral(r.value) == s
    ensures r.None? ==> forall st :: AgentStatusLiteral(st) != s
  {
    if s == "active" then Some(AgentStatus.Active)
    else if s == "idle" then Some(Idle)
    else if s == "error" then Some(AgentStatus.Error)
    else if s == "paused" then Some(AgentStatus.Paused)
    else None
  }

  datatype MessageRole = UserRole | AgentRole | SystemRole

  function RoleLiteral(role: MessageRole): string {
    match role
    case UserRole => "user"
    case AgentRole => "agent"
    case SystemRole => "system"
  }

  function ParseRole(s: string): (r: Option<MessageRole>)
    ensures r.Some? ==> RoleLiteral(r.value) == s
    ensures r.None? ==> forall role :: RoleLiteral(role) != s
  {
    if s == "user" then Some(UserRole)
    else if s == "agent" then Some(AgentRole)
    else if s == "system" then Some(SystemRole)
    else None
  }

  /** A row of `users`. */
  datatype User = User(
    clerkId: string,
    email: string,
    name: Option<string>,
    imageUrl: Option<string>,
    stripeCustomerId: Option<string>,
    plan: Plan,
    createdAt: int)

  /** A row of `skills`. Prices are micro-USD; `averageRating` is in tenths
      of a star, 0 while unrated. `slug` is stored although the declared
      table lacks it, and `authorId` is absent on the seeded rows. */
  datatype Skill = Skill(
    slug: string,
    name: string,
    description: string,
    longDescription: Option<string>,
    category: string,
    endpoint: string,
    httpMethod: HttpMethod,
    pricePerCall: int,
    authorId: Option<Id>,
    authorName: string,
    tags: seq<string>,
    exampleInput: Option<string>,
    exampleOutput: Option<string>,
    responseTime: Option<string>,
    totalCalls: nat,
    totalReviews: nat,
    averageRating: int,
    status: SkillStatus,
    createdAt: int)

  /** A row of `reviews`; the `by_user_skill` index keys it by
      `(userId, skillId)`. */
  datatype Review = Review(
    skillId: Id,
    userId: Id,
    rating: int,
    comment: Option<string>,
    createdAt: int)

  /** A row of `transactions`; `amount` is micro-USD. */
  datatype Transaction = Transaction(
    skillId: Id,
    buyerId: Id,
    sellerId: Option<Id>,
    amount: int,
    status: TxStatus,
    txHash: Option<string>,
    createdAt: int)

  /** One agent a template describes. */
  datatype AgentBlueprint = AgentBlueprint(
    name: string,
    role: string,
    description: string,
    systemPrompt: string,
    tools: seq<string>)

  /** A row of `templates`. */
  datatype Template = Template(
    name: string,
    industry: string,
    description: string,
    icon: string,
    color: string,
    agents: seq<AgentBlueprint>)

  datatype WorkforceConfig = WorkforceConfig(
    companyName: Option<string>,
    brandVoice: Option<string>,
    industry: Option<string>,
    context: Option<string>)

  /** A row of `workforces`. */
  datatype Workforce = Workforce(
    name: string,
    userId: Id,
    templateId: Option<Id>,
    status: WorkforceStatus,
    config: Option<WorkforceConfig>,
    createdAt: int)

  /** A row of `agents`. */
  datatype Agent = Agent(
    workforceId: Id,
    name: string,
    role: string,
    description: string,
    systemPrompt: string,
    tools: seq<string>,
    status: AgentStatus,
    messagesProcessed: nat,
    lastActive: Option<int>,
    createdAt: int)

  /** A row of `messages`. */
  datatype Message = Message(
    agentId: Id,
    workforceId: Id,
    role: MessageRole,
    content: string,
    createdAt: int)

  /** What a mutation throws; a throw rolls the whole mutation back. */
  datatype Failure =
    | SignInRequired
    | UserNotFound
    | RatingOutOfRange
    | AlreadyReviewed
    | BuyerNotFound
    | SkillNotFound
    | PlanLimitReached
    | NonexistentDocument(id: Id)

  function FailureMessage(f: Failure): string {
    match f
    case SignInRequired => "User not found. Please sign in."
    case UserNotFound => "User not found"
    case RatingOutOfRange => "Rating must be between 1 and 5"
    case AlreadyReviewed => "You have already reviewed this skill"
    case BuyerNotFound => "Buyer not found"
    case SkillNotFound => "Skill not found"
    case PlanLimitReached => "Plan limit reached. Upgrade to create more workforces."
    case NonexistentDocument(_) => "Nonexistent document"
  }
}
