/** GlobalExceptionHandlerMiddleware: what an exception that escapes a request becomes. A
    validation failure is answered 400 with the failures grouped by property; every other
    exception is mapped to a status code and a message. */
module ExceptionMiddleware {
  import opened Common
  import opened Text

  datatype ErrorResponse = ErrorResponse(statusCode: int, message: string, timestamp: Instant, path: string, details: Option<string>)

  /** `Errors` is a dictionary; it is listed here in its enumeration order, key by key. */
  datatype ValidationErrorResponse = ValidationErrorResponse(
    statusCode: int,
    message: string,
    timestamp: Instant,
    path: string,
    errors: seq<(string, seq<string>)>)

  datatype Response = Plain(response: ErrorResponse) | Invalid(validation: ValidationErrorResponse)

  const ValidationFailedMessage: string := "One or more validation errors occurred"
  const UnauthorizedMessage: string := "Unauthorized access"
  const NotFoundMessage: string := "Resource not found"
  const GenericMessage: string := "An error occurred while processing your request"

  /** The switch over the other exceptions: status code and message. */
  function StatusAndMessage(e: Exception): (sm: (int, string))
    requires !e.ValidationException?
    ensures sm.0 in {400, 401, 404, 500}
    ensures e.InvalidOperationException? || e.ArgumentException? ==> sm == (400, e.message)
  {
    match e
    case UnauthorizedAccessException(_) => (401, UnauthorizedMessage)
    case InvalidOperationException(m) => (400, m)
    case ArgumentException(m) => (400, m)
    case KeyNotFoundException(_) => (404, NotFoundMessage)
    case _ => (500, GenericMessage)
  }

  /** ToCamelCase: the first character lowered unless it is already lower case. */
  function ToCamelCase(s: string): (r: string)
    ensures |r| == |s|
    ensures |s| > 0 ==> r[1..] == s[1..] && r[0] == LowerChar(s[0])
    ensures |s| == 0 || IsAsciiLower(s[0]) ==> r == s
  {
    if |s| == 0 || IsAsciiLower(s[0]) then s else [LowerChar(s[0])] + s[1..]
  }

  /** Camel-casing twice is camel-casing once, and the result never starts upper case. */
  lemma ToCamelCaseIdempotent(s: string)
    ensures ToCamelCase(ToCamelCase(s)) == ToCamelCase(s)
    ensures |s| > 0 ==> !IsAsciiUpper(ToCamelCase(s)[0])
  {
    if |s| > 0 && !IsAsciiLower(s[0]) {
      var r := ToCamelCase(s);
      if IsAsciiUpper(s[0]) {
        assert IsAsciiLower(r[0]);
      } else {
        assert r == s;
      }
    }
  }

  lemma ToCamelCaseExamples()
    ensures ToCamelCase("Amount") == "amount"
    ensures ToCamelCase("amount") == "amount" && ToCamelCase("") == ""
  {
    assert ToCamelCase("Amount") == ['a'] + "Amount"[1..];
  }

  /** The messages of the failures on property `name`, in order (the reference for `GroupBy`). */
  function MessagesOf(errors: seq<ValidationFailure>, name: string): seq<string> {
    if errors == [] then []
    else (if errors[0].propertyName == name then [errors[0].errorMessage] else []) + MessagesOf(errors[1..], name)
  }

  lemma {:induction false} MessagesOfAppend(errors: seq<ValidationFailure>, e: ValidationFailure, name: string)
    ensures MessagesOf(errors + [e], name) == MessagesOf(errors, name) + (if e.propertyName == name then [e.errorMessage] else [])
    decreases |errors|
  {
    if errors != [] {
      assert (errors + [e])[1..] == errors[1..] + [e];
      MessagesOfAppend(errors[1..], e, name);
    } else {
      assert errors + [e] == [e];
    }
  }

  lemma {:induction false} NoMessagesOfAbsent(errors: seq<ValidationFailure>, name: string)
    requires forall i :: 0 <= i < |errors| ==> errors[i].propertyName != name
    ensures MessagesOf(errors, name) == []
    decreases |errors|
  {
    if errors != [] {
      NoMessagesOfAbsent(errors[1..], name);
    }
  }

  /** The keys of a list of groups, in order. */
  function Keys<V>(groups: seq<(string, V)>): (r: seq<string>)
    ensures |r| == |groups| && forall i :: 0 <= i < |groups| ==> r[i] == groups[i].0
  {
    if groups == [] then [] else [groups[0].0] + Keys(groups[1..])
  }

  predicate DistinctKeys<V>(groups: seq<(string, V)>) {
    forall i, j :: 0 <= i < j < |groups| ==> groups[i].0 != groups[j].0
  }

  /** The messages listed under key `k`: those of its first group. */
  function GroupOf(groups: seq<(string, seq<string>)>, k: string): seq<string>
    requires k in Keys(groups)
  {
    if groups[0].0 == k then groups[0].1 else GroupOf(groups[1..], k)
  }

  /** With distinct keys, the group at index i is the one found under its key. */
  lemma {:induction false} GroupOfAt(groups: seq<(string, seq<string>)>, i: int)
    requires DistinctKeys(groups) && 0 <= i < |groups|
    ensures groups[i].0 in Keys(groups) && GroupOf(groups, groups[i].0) == groups[i].1
    decreases i
  {
    assert Keys(groups)[i] == groups[i].0;
    if i > 0 {
      assert groups[1..][i - 1] == groups[i];
      GroupOfAt(groups[1..], i - 1);
    }
  }

  /** Adding one failure to the groups: to its property's group, or as a new last group. */
  function AddToGroup(groups: seq<(string, seq<string>)>, e: ValidationFailure): (r: seq<(string, seq<string>)>)
    ensures |groups| <= |r| <= |groups| + 1
  {
    if groups == [] then [(e.propertyName, [e.errorMessage])]
    else if groups[0].0 == e.propertyName then [(groups[0].0, groups[0].1 + [e.errorMessage])] + groups[1..]
    else [groups[0]] + AddToGroup(groups[1..], e)
  }

  /** `Errors.GroupBy(e => e.PropertyName)` with each group's messages: groups in the order their
      property first fails, messages in failure order. */
  function GroupByProperty(errors: seq<ValidationFailure>): (g: seq<(string, seq<string>)>)
    ensures |g| <= |errors|
    ensures g == [] <==> errors == []
  {
    if errors == [] then [] else AddToGroup(GroupByProperty(errors[..|errors| - 1]), errors[|errors| - 1])
  }

  lemma {:induction false} AddToGroupKeys(groups: seq<(string, seq<string>)>, e: ValidationFailure)
    ensures forall k :: k in Keys(AddToGroup(groups, e)) <==> k in Keys(groups) || k == e.propertyName
    decreases |groups|
  {
    if groups != [] {
      assert Keys(groups) == [groups[0].0] + Keys(groups[1..]);
      if groups[0].0 != e.propertyName {
        AddToGroupKeys(groups[1..], e);
        assert Keys(AddToGroup(groups, e)) == [groups[0].0] + Keys(AddToGroup(groups[1..], e));
      } else {
        assert Keys(AddToGroup(groups, e)) == [groups[0].0] + Keys(groups[1..]);
      }
    }
  }

  lemma {:induction false} AddToGroupDistinct(groups: seq<(string, seq<string>)>, e: ValidationFailure)
    requires DistinctKeys(groups)
    ensures DistinctKeys(AddToGroup(groups, e))
    decreases |groups|
  {
    if groups != [] && groups[0].0 != e.propertyName {
      AddToGroupDistinct(groups[1..], e);
      AddToGroupKeys(groups[1..], e);
      var rest := AddToGroup(groups[1..], e);
      forall j | 0 <= j < |rest| ensures rest[j].0 != groups[0].0 {
        assert Keys(rest)[j] == rest[j].0;
        if rest[j].0 in Keys(groups[1..]) {
          var m :| 0 <= m < |groups[1..]| && Keys(groups[1..])[m] == rest[j].0;
          assert groups[m + 1].0 == rest[j].0;
        }
      }
      assert AddToGroup(groups, e) == [groups[0]] + rest;
    }
  }

  /** Each key's messages after adding e: its previous messages, then e's message if e is on
      that property. */
  lemma {:induction false} AddToGroupMessages(groups: seq<(string, seq<string>)>, e: ValidationFailure, k: string)
    requires k in Keys(AddToGroup(groups, e))
    ensures k in Keys(groups) || k == e.propertyName
    ensures GroupOf(AddToGroup(groups, e), k)
            == (if k in Keys(groups) then GroupOf(groups, k) else []) + (if k == e.propertyName then [e.errorMessage] else [])
    decreases |groups|
  {
    AddToGroupKeys(groups, e);
    if groups != [] {
      assert Keys(groups) == [groups[0].0] + Keys(groups[1..]);
      var r := AddToGroup(groups, e);
      if groups[0].0 == e.propertyName {
        assert Keys(r) == [groups[0].0] + Keys(groups[1..]);
      } else {
        assert r == [groups[0]] + AddToGroup(groups[1..], e);
        assert Keys(r) == [groups[0].0] + Keys(AddToGroup(groups[1..], e));
        if k != groups[0].0 {
          AddToGroupMessages(groups[1..], e, k);
        }
      }
    }
  }

  /** The grouping is faithful: each property that failed appears once, and its group holds
      exactly its messages in failure order. */
  lemma {:induction false} GroupByPropertyMeaning(errors: seq<ValidationFailure>)
    ensures DistinctKeys(GroupByProperty(errors))
    ensures forall k :: k in Keys(GroupByProperty(errors)) <==> exists i :: 0 <= i < |errors| && errors[i].propertyName == k
    ensures forall k :: k in Keys(GroupByProperty(errors)) ==> GroupOf(GroupByProperty(errors), k) == MessagesOf(errors, k)
    decreases |errors|
  {
    if errors != [] {
      var front, e := errors[..|errors| - 1], errors[|errors| - 1];
      assert errors == front + [e];
      GroupByPropertyMeaning(front);
      var g := GroupByProperty(front);
      AddToGroupKeys(g, e);
      AddToGroupDistinct(g, e);
      var r := GroupByProperty(errors);
      forall k ensures k in Keys(r) <==> exists i :: 0 <= i < |errors| && errors[i].propertyName == k {
        if k in Keys(g) {
          var i :| 0 <= i < |front| && front[i].propertyName == k;
          assert errors[i] == front[i];
        }
        if exists i :: 0 <= i < |errors| && errors[i].propertyName == k {
          var i :| 0 <= i < |errors| && errors[i].propertyName == k;
          if i < |front| { assert front[i] == errors[i]; }
        }
      }
      forall k | k in Keys(r) ensures GroupOf(r, k) == MessagesOf(errors, k) {
        MessagesOfAppend(front, e, k);
        AddToGroupMessages(g, e, k);
        if k !in Keys(g) {
          NoMessagesOfAbsent(front, k);
        }
      }
    }
  }

  /** The groups with their keys camel-cased. */
  function CamelCased(groups: seq<(string, seq<string>)>): (r: seq<(string, seq<string>)>)
    ensures |r| == |groups| && forall i :: 0 <= i < |groups| ==> r[i] == (ToCamelCase(groups[i].0), groups[i].1)
  {
    seq(|groups|, i requires 0 <= i < |groups| => (ToCamelCase(groups[i].0), groups[i].1))
  }

  function DuplicateKeyMessage(key: string): string {
    "An item with the same key has already been added. Key: " + key
  }

  predicate HasKey(d: seq<(string, seq<string>)>, key: string) {
    exists i :: 0 <= i < |d| && d[i].0 == key
  }

  /** `ToDictionary`: the entries added one by one; a key already present makes it throw. */
  function ToDictionary(entries: seq<(string, seq<string>)>): (d: Result<seq<(string, seq<string>)>>)
    ensures d.Ok? ==> d.value == entries
  {
    AddEntriesMeaning([], entries);
    assert [] + entries == entries;
    AddEntries([], entries)
  }

  /** Adding `rest` to the dictionary built so far, `d`. */
  function AddEntries(d: seq<(string, seq<string>)>, rest: seq<(string, seq<string>)>): Result<seq<(string, seq<string>)>>
    decreases |rest|
  {
    if rest == [] then Ok(d)
    else if HasKey(d, rest[0].0) then Err(ArgumentException(DuplicateKeyMessage(rest[0].0)))
    else AddEntries(d + [rest[0]], rest[1..])
  }

  lemma {:induction false} AddEntriesMeaning(d: seq<(string, seq<string>)>, rest: seq<(string, seq<string>)>)
    requires DistinctKeys(d)
    ensures AddEntries(d, rest).Ok? <==> DistinctKeys(d + rest)
    ensures AddEntries(d, rest).Ok? ==> AddEntries(d, rest).value == d + rest
    decreases |rest|
  {
    if rest == [] {
      assert d + rest == d;
    } else {
      var e := rest[0];
      assert (d + [e]) + rest[1..] == d + rest;
      if HasKey(d, e.0) {
        var i :| 0 <= i < |d| && d[i].0 == e.0;
        assert (d + rest)[i].0 == (d + rest)[|d|].0;
      } else {
        assert DistinctKeys(d + [e]);
        AddEntriesMeaning(d + [e], rest[1..]);
      }
    }
  }

  /** The dictionary holds exactly the entries when their keys are distinct, and throws otherwise. */
  lemma ToDictionaryMeaning(entries: seq<(string, seq<string>)>)
    ensures ToDictionary(entries).Ok? <==> DistinctKeys(entries)
    ensures ToDictionary(entries).Ok? ==> ToDictionary(entries).value == entries
  {
    AddEntriesMeaning([], entries);
    assert [] + entries == entries;
  }

  /** HandleExceptionAsync: the body written for exception `e`. `rendered` is `e.ToString()`
      and `now` the clock reading; isDevelopment is the hosting environment's. The result is
      an error when building the dictionary throws. */
  function HandleException(e: Exception, isDevelopment: bool, path: string, now: Instant, rendered: string): (r: Result<Response>)
    ensures !e.ValidationException? ==> r.Ok? && r.value.Plain?
    ensures e.ValidationException? && r.Ok? ==> r.value.Invalid? && r.value.validation.statusCode == 400
  {
    match e
    case ValidationException(errors) =>
      (match ToDictionary(CamelCased(GroupByProperty(errors)))
       case Err(err) => Err(err)
       case Ok(d) => Ok(Invalid(ValidationErrorResponse(400, ValidationFailedMessage, now, path, d))))
    case _ =>
      var (statusCode, message) := StatusAndMessage(e);
      Ok(Plain(ErrorResponse(statusCode, message, now, path, if isDevelopment then Some(rendered) else None)))
  }

  /** The status codes: 400 for validation failures, invalid operations and bad arguments; 401
      for unauthorized access, with a fixed message that hides the exception's; 404 for a
      missing key; 500 for the rest, with a generic message. Invalid operations and bad
      arguments keep their own message. */
  lemma StatusCodes(e: Exception, isDevelopment: bool, path: string, now: Instant, rendered: string)
    requires !e.ValidationException?
    ensures var r := HandleException(e, isDevelopment, path, now, rendered);
            && r.Ok? && r.value.Plain?
            && r.value.response.path == path && r.value.response.timestamp == now
            && (r.value.response.statusCode == 400 <==> e.InvalidOperationException? || e.ArgumentException?)
            && (r.value.response.statusCode == 401 <==> e.UnauthorizedAccessException?)
            && (r.value.response.statusCode == 404 <==> e.KeyNotFoundException?)
            && (r.value.response.statusCode == 500 <==>
                  !(e.InvalidOperationException? || e.ArgumentException? || e.UnauthorizedAccessException? || e.KeyNotFoundException?))
            && (e.InvalidOperationException? || e.ArgumentException? ==> r.value.response.message == e.message)
            && (e.UnauthorizedAccessException? ==> r.value.response.message == UnauthorizedMessage)
            && (e.KeyNotFoundException? ==> r.value.response.message == NotFoundMessage)
            && (r.value.response.statusCode == 500 ==> r.value.response.message == GenericMessage)
  {
  }

  /** The exception's rendering is shown in Development and nowhere else. */
  lemma DetailsOnlyInDevelopment(e: Exception, isDevelopment: bool, path: string, now: Instant, rendered: string)
    requires !e.ValidationException?
    ensures var r := HandleException(e, isDevelopment, path, now, rendered);
            r.Ok? && (r.value.response.details.Some? <==> isDevelopment)
            && (isDevelopment ==> r.value.response.details == Some(rendered))
  {
  }

  /** The camel-cased groups pair each failing property's camel-cased name with its messages. */
  lemma CamelCasedGroups(errors: seq<ValidationFailure>)
    ensures var g := GroupByProperty(errors);
            && |CamelCased(g)| == |g|
            && (forall k :: k in Keys(g) <==> exists i :: 0 <= i < |errors| && errors[i].propertyName == k)
            && forall i :: 0 <= i < |g| ==> CamelCased(g)[i] == (ToCamelCase(g[i].0), MessagesOf(errors, g[i].0))
  {
    GroupByPropertyMeaning(errors);
    var g := GroupByProperty(errors);
    forall i | 0 <= i < |g| ensures g[i].1 == MessagesOf(errors, g[i].0) {
      GroupOfAt(g, i);
    }
  }

  /** The keys stay distinct once camel-cased exactly when no two camel-case alike. */
  lemma CamelCasedDistinct(g: seq<(string, seq<string>)>)
    ensures DistinctKeys(CamelCased(g)) <==> forall i, j :: 0 <= i < j < |g| ==> ToCamelCase(g[i].0) != ToCamelCase(g[j].0)
  {
  }

  /** The validation branch of HandleException. */
  lemma HandleValidationException(errors: seq<ValidationFailure>, isDevelopment: bool, path: string, now: Instant, rendered: string)
    ensures var r := HandleException(ValidationException(errors), isDevelopment, path, now, rendered);
            var d := CamelCased(GroupByProperty(errors));
            && (r.Ok? <==> DistinctKeys(d))
            && (r.Ok? ==> r.value == Invalid(ValidationErrorResponse(400, ValidationFailedMessage, now, path, d)))
  {
    ToDictionaryMeaning(CamelCased(GroupByProperty(errors)));
  }

  /** A validation failure is a 400 whose errors list, for each property that failed, its
      camel-cased name once and its messages in order, in the order the properties first
      failed; property names that collide once camel-cased make the handler throw instead. */
  lemma ValidationResponse(errors: seq<ValidationFailure>, isDevelopment: bool, path: string, now: Instant, rendered: string)
    ensures var r := HandleException(ValidationException(errors), isDevelopment, path, now, rendered);
            var g := GroupByProperty(errors);
            && (r.Ok? <==> forall i, j :: 0 <= i < j < |g| ==> ToCamelCase(g[i].0) != ToCamelCase(g[j].0))
            && (r.Ok? ==>
                  && r.value == Invalid(ValidationErrorResponse(400, ValidationFailedMessage, now, path, CamelCased(g)))
                  && (forall k :: k in Keys(g) <==> exists i :: 0 <= i < |errors| && errors[i].propertyName == k)
                  && |CamelCased(g)| == |g|
                  && forall i :: 0 <= i < |g| ==> CamelCased(g)[i] == (ToCamelCase(g[i].0), MessagesOf(errors, g[i].0)))
  {
    CamelCasedGroups(errors);
    CamelCasedDistinct(GroupByProperty(errors));
    HandleValidationException(errors, isDevelopment, path, now, rendered);
  }
}
