/**
 * The status endpoint: a lookup in the in-memory session status store,
 * with a "processing" answer for a session that has no (or an empty)
 * record.
 */
module Status {

  /** A status record, such as `{"status": "ready", "message": "..."}`. */
  type Record = map<string, string>

  /** `session_status_store`: session id to status record. */
  type StatusStore = map<string, Record>

  /** The store as the server starts it: cleared. */
  const StartupStore: StatusStore := map[]

  /** What a session without a record reads as. */
  const Unknown: Record := map["status" := "processing", "message" := "Status unknown or processing..."]

  /** `get_session_status`; the store is a value and is left as it is. */
  function GetSessionStatus(store: StatusStore, sessionId: string): (r: Record)
    ensures sessionId !in store || store[sessionId] == map[] ==> r == Unknown
    ensures sessionId in store && store[sessionId] != map[] ==> r == store[sessionId]
  {
    if sessionId !in store || store[sessionId] == map[] then Unknown else store[sessionId]
  }

  /** A lookup never answers with an empty record. */
  lemma StatusNeverEmpty(store: StatusStore, sessionId: string)
    ensures GetSessionStatus(store, sessionId) != map[]
  {
    assert "status" in Unknown;
  }

  /**
   * Nothing in the server writes the store after startup clears it (the
   * background task never records an outcome), so every session reads as
   * processing, whatever happened to its upload.
   */
  lemma StatusAlwaysProcessing(sessionId: string)
    ensures GetSessionStatus(StartupStore, sessionId)["status"] == "processing"
  {
  }

  /**
   * A recorded status is seen by every later lookup, and recording one
   * session's status changes no other session's answer.
   */
  lemma StatusRecordVisible(store: StatusStore, sessionId: string, other: string, rec: Record)
    requires rec != map[] && other != sessionId
    ensures GetSessionStatus(store[sessionId := rec], sessionId) == rec
    ensures GetSessionStatus(store[sessionId := rec], other) == GetSessionStatus(store, other)
  {
  }
}
