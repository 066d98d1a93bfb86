/**
 * Shared vocabulary of the inventory ledger: the enumerations of the domain,
 * the optional/result wrappers used for nullable values and error paths, the
 * error kinds the services raise, and the identity of the calling user.
 */
module Common {

  /** Point in time (UTC), counted in ticks. */
  type Instant = int

  datatype Option<T> = None | Some(value: T)
  {
    function GetOr(default: T): (r: T)
      ensures Some? ==> r == value
      ensures None? ==> r == default
    {
      match this
      case None => default
      case Some(v) => v
    }
  }

  /** An optional request field that, when present, still has to be parsed. */
  datatype Field<T> = Absent | Unparsable | Given(value: T)

  /**
   * The exceptions the modelled code throws.  NotFound, Validation, Business
   * and Unauthorized are the application exceptions; DuplicateKey is the
   * database driver's write error; the others are the framework exceptions
   * thrown by the domain entities.
   */
  datatype Error =
    | NotFound
    | Validation
    | Business
    | Unauthorized
    | DuplicateKey                                     // a unique index refused the write
    | NotDraft(status: TransactionStatus)              // Commit outside Draft
    | CancelCommitted                                  // "create a reversal transaction instead"
    | AlreadyCancelled
    | NegativeStock(itemCode: string, condition: ItemCondition)
    | InvalidArgument                                  // System.ArgumentException
    | UnauthorizedAccess                               // System.UnauthorizedAccessException
    | InvalidOperation                                 // System.InvalidOperationException (value of an empty nullable)

  datatype Result<T> = Ok(value: T) | Err(error: Error)
  {
    predicate IsFailure() { Err? }
    function PropagateFailure<U>(): Result<U>
      requires Err?
    {
      Err(error)
    }
    function Extract(): T
      requires Ok?
    {
      value
    }
  }

  /** Result of an operation that produces no value. */
  datatype Outcome = Pass | Fail(error: Error)
  {
    predicate IsFailure() { Fail? }
    function PropagateFailure<U>(): Result<U>
      requires Fail?
    {
      Err(error)
    }
  }

  /**
   * The outcome of a loop over steps that stops at the first failure: all
   * the values when every step succeeds, otherwise the first step's error.
   */
  function Collect<T>(rs: seq<Result<T>>): (r: Result<seq<T>>)
    ensures r.Ok? <==> forall i | 0 <= i < |rs| :: rs[i].Ok?
    ensures r.Ok? ==> |r.value| == |rs| && forall i | 0 <= i < |rs| :: r.value[i] == rs[i].value
    ensures r.Err? ==> exists i | 0 <= i < |rs| :: rs[i].Err? && r.error == rs[i].error &&
                         forall j | 0 <= j < i :: rs[j].Ok?
    decreases |rs|
  {
    if |rs| == 0 then Ok([])
    else if rs[0].Err? then Err(rs[0].error)
    else
      var rest := Collect(rs[1..]);
      if rest.Err? then
        assert exists i | 0 <= i < |rs| - 1 :: rs[1..][i].Err? && rest.error == rs[1..][i].error &&
                 forall j | 0 <= j < i :: rs[1..][j].Ok?;
        var i :| 0 <= i < |rs| - 1 && rs[1..][i].Err? && rest.error == rs[1..][i].error &&
                 forall j | 0 <= j < i :: rs[1..][j].Ok?;
        assert rs[i + 1].Err? && forall j | 0 <= j < i + 1 :: rs[j].Ok? by {
          forall j | 0 < j < i + 1 ensures rs[j] == rs[1..][j - 1] { }
        }
        Err(rest.error)
      else
        Ok([rs[0].value] + rest.value)
  }

  /** The first failure in a sequence of results is the failure of the whole. */
  lemma CollectFirstFailure<T>(rs: seq<Result<T>>, i: nat)
    requires i < |rs| && rs[i].Err? && forall j | 0 <= j < i :: rs[j].Ok?
    ensures Collect(rs) == Err(rs[i].error)
  {
    var k :| 0 <= k < |rs| && rs[k].Err? && Collect(rs).error == rs[k].error && forall j | 0 <= j < k :: rs[j].Ok?;
    assert k == i;
  }

  /** Results that all succeed collect to their values, in order. */
  lemma CollectAllOk<T>(rs: seq<Result<T>>, vs: seq<T>)
    requires |vs| == |rs| && forall j | 0 <= j < |rs| :: rs[j] == Ok(vs[j])
    ensures Collect(rs) == Ok(vs)
  {
    assert forall j | 0 <= j < |rs| :: rs[j].Ok?;
    assert Collect(rs).value == vs;
  }

  /** The outcome of a loop of checks that stops at the first failing one. */
  function FirstFailure(os: seq<Outcome>): (r: Outcome)
    ensures r.Pass? <==> forall i | 0 <= i < |os| :: os[i].Pass?
    ensures r.Fail? ==> exists i | 0 <= i < |os| :: os[i] == r && forall j | 0 <= j < i :: os[j].Pass?
    decreases |os|
  {
    if |os| == 0 then Pass
    else if os[0].Fail? then os[0]
    else
      var rest := FirstFailure(os[1..]);
      if rest.Fail? then
        var i :| 0 <= i < |os| - 1 && os[1..][i] == rest && forall j | 0 <= j < i :: os[1..][j].Pass?;
        assert os[i + 1] == rest && forall j | 0 <= j < i + 1 :: os[j].Pass? by {
          forall j | 0 < j < i + 1 ensures os[j] == os[1..][j - 1] { }
        }
        rest
      else
        assert forall i | 0 < i < |os| :: os[i] == os[1..][i - 1];
        Pass
  }

  /** A check that fails at i, after every earlier one passed, is the first failure. */
  lemma FirstFailureAt(os: seq<Outcome>, i: nat)
    requires i < |os| && os[i].Fail?
    requires forall j | 0 <= j < i :: os[j].Pass?
    ensures FirstFailure(os) == os[i]
  {
    var r := FirstFailure(os);
    var k :| 0 <= k < |os| && os[k] == r && forall j | 0 <= j < k :: os[j].Pass?;
    assert k == i;
  }

  datatype Currency = USD | DOP
  datatype ItemCondition = New | Used
  datatype Classification = Good | Service
  datatype TransactionType = In | Out | Adjust
  datatype TransactionStatus = Draft | Committed | Cancelled
  datatype PriceSource = ConsumableItemPrice | Manual | Sale | SystemDefault | PurchaseOrder | AverageCost
  datatype PaymentMethod = Cash | Card | AcimaShortTermCredit | AccountsReceivable
  datatype Role = Admin | Supervisor | Seller | StoreSeller

  function CurrencyName(c: Currency): string
  {
    match c
    case USD => "USD"
    case DOP => "DOP"
  }

  function RoleName(r: Role): string
  {
    match r
    case Admin => "Admin"
    case Supervisor => "Supervisor"
    case Seller => "Seller"
    case StoreSeller => "StoreSeller"
  }

  function TransactionTypeName(t: TransactionType): string
  {
    match t
    case In => "In"
    case Out => "Out"
    case Adjust => "Adjust"
  }

  function TransactionStatusName(s: TransactionStatus): string
  {
    match s
    case Draft => "Draft"
    case Committed => "Committed"
    case Cancelled => "Cancelled"
  }

  function PaymentMethodName(p: PaymentMethod): string
  {
    match p
    case Cash => "Cash"
    case Card => "Card"
    case AcimaShortTermCredit => "AcimaShortTermCredit"
    case AccountsReceivable => "AccountsReceivable"
  }

  function ConditionName(c: ItemCondition): string
  {
    match c
    case New => "New"
    case Used => "Used"
  }

  /** The roles that are bound to one branch. */
  predicate IsSellerRole(r: Role)
  {
    r == Seller || r == StoreSeller
  }

  /** The authenticated caller, as the current-user port exposes it. */
  datatype CurrentUser = CurrentUser(
    userId: string,
    username: string,
    role: Role,
    branchId: Option<string>,
    branchCode: Option<string>)

  /**
   * char.IsWhiteSpace: the control characters 9 to 13 and 133, and the
   * Unicode space, line and paragraph separators.
   */
  predicate IsWhiteSpace(c: char)
  {
    || c == ' ' || c == '\t' || c == '\n' || c == '\r' || c == '\U{000B}' || c == '\U{000C}'
    || c == '\U{0085}' || c == '\U{00A0}' || c == '\U{1680}' || ('\U{2000}' <= c <= '\U{200A}')
    || c == '\U{2028}' || c == '\U{2029}' || c == '\U{202F}' || c == '\U{205F}' || c == '\U{3000}'
  }

  /** string.IsNullOrEmpty */
  predicate IsNullOrEmpty(s: Option<string>)
  {
    s.None? || s.value == ""
  }

  /** string.IsNullOrWhiteSpace */
  predicate IsNullOrWhiteSpace(s: Option<string>)
  {
    s.None? || forall i | 0 <= i < |s.value| :: IsWhiteSpace(s.value[i])
  }
}
