/** The card-definition records shared by the viewers and the API: token colours, cost maps,
    the two card-definition tables and the rows they hold. */
module Cards {
  import opened Wrappers

  /** The five token colours. */
  datatype Token = WHITE | BLUE | GREEN | RED | BLACK

  function TokenName(t: Token): string {
    match t
    case WHITE => "WHITE"
    case BLUE => "BLUE"
    case GREEN => "GREEN"
    case RED => "RED"
    case BLACK => "BLACK"
  }

  /** Reads a colour name as stored in the database. */
  function ParseToken(s: string): (r: Option<Token>)
    ensures r.Some? ==> TokenName(r.value) == s
  {
    if s == "WHITE" then Some(WHITE)
    else if s == "BLUE" then Some(BLUE)
    else if s == "GREEN" then Some(GREEN)
    else if s == "RED" then Some(RED)
    else if s == "BLACK" then Some(BLACK)
    else None
  }

  /** Every colour name reads back as its colour. */
  lemma ParseTokenName(t: Token)
    ensures ParseToken(TokenName(t)) == Some(t)
  {
  }

  /** A cost as the viewers see it: colour to amount; a decoded string may lack colours. */
  type CostMap = map<Token, int>

  /** A full cost vector: all five colours present. */
  predicate IsCostVector(m: CostMap) {
    WHITE in m && BLUE in m && GREEN in m && RED in m && BLACK in m
  }

  lemma IsCostVectorAllColours(m: CostMap)
    ensures IsCostVector(m) <==> forall t: Token :: t in m
  {
    if IsCostVector(m) {
      forall t: Token
        ensures t in m
      {
        match t
        case WHITE =>
        case BLUE =>
        case GREEN =>
        case RED =>
        case BLACK =>
      }
    }
  }

  /** Every colour at zero. */
  const ZeroCost: CostMap := map[WHITE := 0, BLUE := 0, GREEN := 0, RED := 0, BLACK := 0]

  /** The all-zero vector has every colour. */
  lemma ZeroCostAllColours()
    ensures forall t: Token :: t in ZeroCost && ZeroCost[t] == 0
  {
    forall t: Token
      ensures t in ZeroCost && ZeroCost[t] == 0
    {
      match t
      case WHITE =>
      case BLUE =>
      case GREEN =>
      case RED =>
      case BLACK =>
    }
  }

  /** The `cost` field of a card: the database's JSON text, or an in-memory `Map`. */
  datatype RawCost = Serialized(text: string) | Structured(entries: map<Token, int>)

  /** A row of the `TokenEngineCardDefinition` table. */
  datatype TokenCard = TokenCard(id: int, token: Token, points: int, tier: int, cost: RawCost)

  /** A row of the `TokenEngineDiscoveryCardDefinition` table. */
  datatype DiscoveryCard = DiscoveryCard(id: int, points: int, cost: RawCost)

  /** The closed set of card-definition tables the application knows. */
  datatype CardTable = TokenTable | DiscoveryTable

  const TokenTableName: string := "TokenEngineCardDefinition"
  const DiscoveryTableName: string := "TokenEngineDiscoveryCardDefinition"

  function TableName(t: CardTable): string {
    match t
    case TokenTable => TokenTableName
    case DiscoveryTable => DiscoveryTableName
  }

  /** Resolves a `tableName` column value; every other name is an unsupported table. */
  function ParseTableName(name: string): (r: Option<CardTable>)
    ensures r.Some? <==> name == TokenTableName || name == DiscoveryTableName
    ensures r.Some? ==> TableName(r.value) == name
  {
    if name == TokenTableName then Some(TokenTable)
    else if name == DiscoveryTableName then Some(DiscoveryTable)
    else None
  }

  /** Table names and tables correspond one to one. */
  lemma ParseTableNameRoundTrip(t: CardTable)
    ensures ParseTableName(TableName(t)) == Some(t)
  {
  }

  /** The rows fetched from one table. */
  datatype CardList = TokenCards(tokenCards: seq<TokenCard>) | DiscoveryCards(discoveryCards: seq<DiscoveryCard>) {
    function Length(): nat {
      match this
      case TokenCards(cs) => |cs|
      case DiscoveryCards(cs) => |cs|
    }
  }
}
