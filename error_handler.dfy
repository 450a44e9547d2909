/** The Express error middleware (backend/middleware/errorHandler.js): an
    ordered chain of rules maps a thrown error to an HTTP status and a
    message; each rule that matches replaces what earlier rules chose. */
module ErrorHandler {
  import opened Wrappers
  import opened Strings

  /** `err.code`: absent, a number (Mongo's 11000) or a string. */
  datatype ErrorCode = NoCode | NumericCode(n: int) | TextCode(text: string)

  /** The parts of a thrown error the chain looks at. `hasResponseData`
      is `err.response && err.response.data` being truthy. */
  datatype IncomingError = IncomingError(
    name: string,
    message: Option<string>,
    code: ErrorCode,
    statusCode: Option<int>,
    validationMessages: seq<string>,
    hasResponseData: bool)

  /** An error object as `createError` builds it. */
  datatype AppError = AppError(message: Option<string>, statusCode: Option<int>)

  datatype ErrorResponse = ErrorResponse(status: int, message: string, path: string)

  const FallbackMessage: string := "服务器内部错误"

  /** `createError(statusCode, message)`. */
  function CreateError(statusCode: int, message: string): (e: AppError)
    ensures e.statusCode == Some(statusCode) && e.message == Some(message)
  {
    AppError(Some(message), Some(statusCode))
  }

  function CreateValidationError(message: string): (e: AppError)
    ensures e.statusCode == Some(400) && e.message == Some(message)
  {
    CreateError(400, message)
  }

  function CreateAuthError(message: string := "未授权访问"): (e: AppError)
    ensures e.statusCode == Some(401) && e.message == Some(message)
  {
    CreateError(401, message)
  }

  function CreateForbiddenError(message: string := "权限不足"): (e: AppError)
    ensures e.statusCode == Some(403) && e.message == Some(message)
  {
    CreateError(403, message)
  }

  function CreateNotFoundError(message: string := "资源未找到"): (e: AppError)
    ensures e.statusCode == Some(404) && e.message == Some(message)
  {
    CreateError(404, message)
  }

  function CreateConflictError(message: string := "资源冲突"): (e: AppError)
    ensures e.statusCode == Some(409) && e.message == Some(message)
  {
    CreateError(409, message)
  }

  function CreateServerError(message: string := "服务器内部错误"): (e: AppError)
    ensures e.statusCode == Some(500) && e.message == Some(message)
  {
    CreateError(500, message)
  }

  function CreateServiceUnavailableError(message: string := "服务暂时不可用"): (e: AppError)
    ensures e.statusCode == Some(503) && e.message == Some(message)
  {
    CreateError(503, message)
  }

  /** One rule of the chain: whether it fires, and the status and message
      it then sets. */
  datatype Rule = Rule(fires: bool, status: int, message: string)

  /** The rules in source order. */
  function Rules(err: IncomingError): (rules: seq<Rule>)
    ensures |rules| == 9
  {
    [ Rule(err.name == "CastError", 404, "资源未找到"),
      Rule(err.code == NumericCode(11000), 400, "资源已存在"),
      Rule(err.name == "ValidationError", 400, Join(err.validationMessages, ", ")),
      Rule(err.name == "JsonWebTokenError", 401, "无效的访问令牌"),
      Rule(err.name == "TokenExpiredError", 401, "访问令牌已过期"),
      Rule(err.code == TextCode("LIMIT_FILE_SIZE"), 400, "文件大小超出限制"),
      Rule(err.hasResponseData, 503, "AI服务暂时不可用"),
      Rule(err.code == TextCode("DOCKER_ERROR"), 500, "代码执行环境错误"),
      Rule(err.statusCode == Some(429), 429, "请求过于频繁，请稍后再试") ]
  }

  /** The error the last firing rule of `rules` builds, or `initial` when
      none fires. */
  function LastFiring(rules: seq<Rule>, initial: AppError): AppError {
    if rules == [] then initial
    else
      var n := |rules| - 1;
      if rules[n].fires then CreateError(rules[n].status, rules[n].message)
      else LastFiring(rules[..n], initial)
  }

  /** One more rule at the end of the chain. */
  lemma LastFiringSnoc(rules: seq<Rule>, r: Rule, initial: AppError)
    ensures LastFiring(rules + [r], initial) ==
      if r.fires then CreateError(r.status, r.message) else LastFiring(rules, initial)
  {
    assert (rules + [r])[..|rules|] == rules;
  }

  /** The rule that fires last decides; later rules that do not fire
      change nothing. */
  lemma {:induction false} LastFiringWins(rules: seq<Rule>, k: nat, initial: AppError)
    requires k < |rules| && rules[k].fires
    requires forall j :: k < j < |rules| ==> !rules[j].fires
    ensures LastFiring(rules, initial) == CreateError(rules[k].status, rules[k].message)
  {
    var n := |rules| - 1;
    if k < n {
      assert forall j :: k < j < n ==> rules[..n][j] == rules[j];
      LastFiringWins(rules[..n], k, initial);
    }
  }

  /** No rule fires: the initial error stays. */
  lemma {:induction false} NoneFires(rules: seq<Rule>, initial: AppError)
    requires forall j :: 0 <= j < |rules| ==> !rules[j].fires
    ensures LastFiring(rules, initial) == initial
  {
    if rules != [] {
      var n := |rules| - 1;
      assert forall j :: 0 <= j < n ==> rules[..n][j] == rules[j];
      NoneFires(rules[..n], initial);
    }
  }

  /** The copy `{ ...err }` with the message carried over. */
  function Initial(err: IncomingError): AppError {
    AppError(err.message, err.statusCode)
  }

  /** The response for a classified error: `statusCode || 500` and
      `message || '服务器内部错误'`. */
  function Respond(e: AppError, path: string): (r: ErrorResponse)
    ensures r.status == (if e.statusCode.Some? && e.statusCode.value != 0 then e.statusCode.value else 500)
    ensures r.message == (if e.message.Some? && e.message.value != [] then e.message.value else FallbackMessage)
    ensures r.path == path
  {
    ErrorResponse(
      if e.statusCode.Some? && e.statusCode.value != 0 then e.statusCode.value else 500,
      if e.message.Some? && e.message.value != [] then e.message.value else FallbackMessage,
      path)
  }

  /** `errorHandler(err, req, res, next)`: each `if` of the chain in turn,
      a later match replacing an earlier one. */
  method Classify(err: IncomingError, path: string) returns (r: ErrorResponse)
    ensures r == Respond(LastFiring(Rules(err), Initial(err)), path)
  {
    var rules := Rules(err);
    var error := Initial(err);
    ghost var seen: seq<Rule> := [];
    LastFiringSnoc(seen, rules[0], Initial(err));
    seen := seen + [rules[0]];
    if err.name == "CastError" {
      error := CreateError(404, "资源未找到");
    }
    LastFiringSnoc(seen, rules[1], Initial(err));
    seen := seen + [rules[1]];
    if err.code == NumericCode(11000) {
      error := CreateError(400, "资源已存在");
    }
    LastFiringSnoc(seen, rules[2], Initial(err));
    seen := seen + [rules[2]];
    if err.name == "ValidationError" {
      error := CreateError(400, Join(err.validationMessages, ", "));
    }
    LastFiringSnoc(seen, rules[3], Initial(err));
    seen := seen + [rules[3]];
    if err.name == "JsonWebTokenError" {
      error := CreateError(401, "无效的访问令牌");
    }
    LastFiringSnoc(seen, rules[4], Initial(err));
    seen := seen + [rules[4]];
    if err.name == "TokenExpiredError" {
      error := CreateError(401, "访问令牌已过期");
    }
    LastFiringSnoc(seen, rules[5], Initial(err));
    seen := seen + [rules[5]];
    if err.code == TextCode("LIMIT_FILE_SIZE") {
      error := CreateError(400, "文件大小超出限制");
    }
    LastFiringSnoc(seen, rules[6], Initial(err));
    seen := seen + [rules[6]];
    if err.hasResponseData {
      error := CreateError(503, "AI服务暂时不可用");
    }
    LastFiringSnoc(seen, rules[7], Initial(err));
    seen := seen + [rules[7]];
    if err.code == TextCode("DOCKER_ERROR") {
      error := CreateError(500, "代码执行环境错误");
    }
    LastFiringSnoc(seen, rules[8], Initial(err));
    seen := seen + [rules[8]];
    if err.statusCode == Some(429) {
      error := CreateError(429, "请求过于频繁，请稍后再试");
    }
    assert seen == rules;
    r := Respond(error, path);
  }

  /** None of the rules after the name checks fires. */
  predicate NoLateRule(err: IncomingError) {
    && err.code != TextCode("LIMIT_FILE_SIZE")
    && !err.hasResponseData
    && err.code != TextCode("DOCKER_ERROR")
    && err.statusCode != Some(429)
  }

  function StatusFor(err: IncomingError): int {
    Respond(LastFiring(Rules(err), Initial(err)), "").status
  }

  /** The chain's outcomes as a table, later rules taking precedence. */
  lemma StatusTable(err: IncomingError)
    ensures err.statusCode == Some(429) ==> StatusFor(err) == 429
    ensures err.statusCode != Some(429) && err.code == TextCode("DOCKER_ERROR") ==> StatusFor(err) == 500
    ensures err.statusCode != Some(429) && err.code != TextCode("DOCKER_ERROR") && err.hasResponseData ==>
      StatusFor(err) == 503
    ensures err.statusCode != Some(429) && !err.hasResponseData && err.code == TextCode("LIMIT_FILE_SIZE") ==>
      StatusFor(err) == 400
    ensures NoLateRule(err) && (err.name == "JsonWebTokenError" || err.name == "TokenExpiredError") ==> StatusFor(err) == 401
    ensures NoLateRule(err) && err.name == "ValidationError" ==> StatusFor(err) == 400
    ensures (NoLateRule(err) && err.code == NumericCode(11000) &&
             err.name != "JsonWebTokenError" && err.name != "TokenExpiredError") ==> StatusFor(err) == 400
    ensures NoLateRule(err) && err.name == "CastError" && err.code != NumericCode(11000) ==> StatusFor(err) == 404
  {
    var rules := Rules(err);
    var init := Initial(err);
    if err.statusCode == Some(429) {
      LastFiringWins(rules, 8, init);
    } else if err.code == TextCode("DOCKER_ERROR") {
      LastFiringWins(rules, 7, init);
    } else if err.hasResponseData {
      LastFiringWins(rules, 6, init);
    } else if err.code == TextCode("LIMIT_FILE_SIZE") {
      LastFiringWins(rules, 5, init);
    } else if err.name == "TokenExpiredError" {
      LastFiringWins(rules, 4, init);
    } else if err.name == "JsonWebTokenError" {
      LastFiringWins(rules, 3, init);
    } else if err.name == "ValidationError" {
      LastFiringWins(rules, 2, init);
    } else if err.code == NumericCode(11000) {
      LastFiringWins(rules, 1, init);
    } else if err.name == "CastError" {
      LastFiringWins(rules, 0, init);
    }
  }

  /** No rule fires: the error's own status and message pass through,
      with 500 and the generic message as fallbacks. */
  lemma UnmatchedPassesThrough(err: IncomingError, path: string)
    requires err.name !in ["CastError", "ValidationError", "JsonWebTokenError", "TokenExpiredError"]
    requires err.code != NumericCode(11000) && NoLateRule(err)
    ensures Respond(LastFiring(Rules(err), Initial(err)), path) == Respond(Initial(err), path)
  {
    NoneFires(Rules(err), Initial(err));
  }

  /** A Mongoose validation error with no field messages falls back to the
      generic message. */
  lemma EmptyValidationMessage(err: IncomingError, path: string)
    requires err.name == "ValidationError" && err.validationMessages == [] && NoLateRule(err)
    ensures Respond(LastFiring(Rules(err), Initial(err)), path) == ErrorResponse(400, FallbackMessage, path)
  {
    LastFiringWins(Rules(err), 2, Initial(err));
  }

  /** `notFound(req, res, next)`. */
  function NotFound(path: string): (r: ErrorResponse)
    ensures r.status == 404 && r.path == path
    ensures Contains(r.message, path)
  {
    ContainsSpliced("路径 ", path, " 未找到");
    ErrorResponse(404, "路径 " + path + " 未找到", path)
  }
}
