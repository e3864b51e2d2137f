/** The error helpers of app/exceptions/service_exceptions.py. Each one
    raises an `HTTPException` and never returns normally. Here each returns
    the exception it raises, and the handlers end the request with it. */
module ServiceExceptions {
  import opened Wrappers

  const HTTP_404_NOT_FOUND: int := 404
  const HTTP_409_CONFLICT: int := 409
  const HTTP_503_SERVICE_UNAVAILABLE: int := 503

  /** FastAPI's `HTTPException(status_code, detail)`. */
  datatype HttpException = HttpException(statusCode: int, detail: string)

  const ServiceUnavailableDetail: string := "Сервис временно недоступен"
  const NotFoundSuffix: string := " не найден"
  const ConflictSuffix: string := " с указанным номером телефона уже существует"
  const UpdateErrorPrefix: string := "Ошибка при "
  const UpdateErrorSuffix: string := " данных"

  /** `handle_service_error`: 503 with one fixed detail, whatever the
      arguments; they only reach the log. */
  function HandleServiceError(serviceName: string, operation: string, entityId: string): (e: HttpException)
    ensures e.statusCode == HTTP_503_SERVICE_UNAVAILABLE
    ensures e.detail == ServiceUnavailableDetail
  {
    HttpException(HTTP_503_SERVICE_UNAVAILABLE, ServiceUnavailableDetail)
  }

  /** `handle_not_found_error`: 404; the detail names the entity type and
      ends with the not-found suffix. The id and the optional operation only
      reach the log. */
  function HandleNotFoundError(entityType: string, entityId: string, operation: Option<string>): (e: HttpException)
    ensures e.statusCode == HTTP_404_NOT_FOUND
    ensures |e.detail| == |entityType| + |NotFoundSuffix|
    ensures e.detail[..|entityType|] == entityType
    ensures e.detail[|entityType|..] == NotFoundSuffix
  {
    HttpException(HTTP_404_NOT_FOUND, entityType + NotFoundSuffix)
  }

  /** `handle_conflict_error`: 409; the detail names the entity type. */
  function HandleConflictError(entityType: string, entityId: string): (e: HttpException)
    ensures e.statusCode == HTTP_409_CONFLICT
    ensures |e.detail| == |entityType| + |ConflictSuffix|
    ensures e.detail[..|entityType|] == entityType
    ensures e.detail[|entityType|..] == ConflictSuffix
  {
    HttpException(HTTP_409_CONFLICT, entityType + ConflictSuffix)
  }

  /** `handle_update_error`: 503; the detail names the operation only. */
  function HandleUpdateError(entityType: string, entityId: string, operation: string): (e: HttpException)
    ensures e.statusCode == HTTP_503_SERVICE_UNAVAILABLE
    ensures |e.detail| == |UpdateErrorPrefix| + |operation| + |UpdateErrorSuffix|
    ensures e.detail[..|UpdateErrorPrefix|] == UpdateErrorPrefix
    ensures e.detail[|UpdateErrorPrefix|..|UpdateErrorPrefix| + |operation|] == operation
    ensures e.detail[|UpdateErrorPrefix| + |operation|..] == UpdateErrorSuffix
  {
    HttpException(HTTP_503_SERVICE_UNAVAILABLE, UpdateErrorPrefix + operation + UpdateErrorSuffix)
  }

  // ---------------------------------------------------------------------------
  // What the details depend on

  /** The service-error exception does not depend on any argument. */
  lemma ServiceErrorIgnoresArguments(s1: string, o1: string, i1: string, s2: string, o2: string, i2: string)
    ensures HandleServiceError(s1, o1, i1) == HandleServiceError(s2, o2, i2)
  {
  }

  /** Two not-found exceptions are equal exactly when their entity types are. */
  lemma NotFoundDependsOnlyOnEntityType(t1: string, i1: string, o1: Option<string>,
                                        t2: string, i2: string, o2: Option<string>)
    ensures HandleNotFoundError(t1, i1, o1) == HandleNotFoundError(t2, i2, o2) <==> t1 == t2
  {
    var e1, e2 := HandleNotFoundError(t1, i1, o1), HandleNotFoundError(t2, i2, o2);
    if e1 == e2 {
      assert |t1| == |t2|;
      assert t1 == e1.detail[..|t1|] == e2.detail[..|t2|] == t2;
    }
  }

  /** Two conflict exceptions are equal exactly when their entity types are. */
  lemma ConflictDependsOnlyOnEntityType(t1: string, i1: string, t2: string, i2: string)
    ensures HandleConflictError(t1, i1) == HandleConflictError(t2, i2) <==> t1 == t2
  {
    var e1, e2 := HandleConflictError(t1, i1), HandleConflictError(t2, i2);
    if e1 == e2 {
      assert |t1| == |t2|;
      assert t1 == e1.detail[..|t1|] == e2.detail[..|t2|] == t2;
    }
  }

  /** Two update-error exceptions are equal exactly when their operations are. */
  lemma UpdateErrorDependsOnlyOnOperation(t1: string, i1: string, o1: string,
                                          t2: string, i2: string, o2: string)
    ensures HandleUpdateError(t1, i1, o1) == HandleUpdateError(t2, i2, o2) <==> o1 == o2
  {
    var e1, e2 := HandleUpdateError(t1, i1, o1), HandleUpdateError(t2, i2, o2);
    if e1 == e2 {
      var k := |UpdateErrorPrefix|;
      assert |o1| == |o2|;
      assert o1 == e1.detail[k..k + |o1|] == e2.detail[k..k + |o2|] == o2;
    }
  }
}
