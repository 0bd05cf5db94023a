/**
 * The mock database utility: a connection flag and a connection object
 * that guard every query. The mock answers every query with no rows.
 */
module DbUtils {
  import opened Wrappers

  const NotConnectedMessage := "Database is not connected. Call connect() first."

  /** The mock connection object, `{ connected: true }`. */
  datatype Connection = Connection(connected: bool)

  /** A result row: column name to value. */
  datatype Row = Row(columns: map<string, string>)

  /** `rows.length > 0 ? rows[0] : null`. */
  function FirstRow(rows: seq<Row>): (first: Option<Row>)
    ensures first.None? <==> rows == []
    ensures first.Some? ==> first.value == rows[0]
  {
    if |rows| > 0 then Some(rows[0]) else None
  }

  class DatabaseUtils {
    var connection: Option<Connection>
    var isConnected: bool

    constructor ()
      ensures connection == None && !isConnected
      ensures Valid()
    {
      connection := None;
      isConnected := false;
    }

    /** The flag and the connection object agree. */
    predicate Valid()
      reads this
    {
      isConnected <==> connection.Some?
    }

    /** `connect`: the mock connection is stored and the flag set, whatever the state before. */
    method Connect()
      modifies this
      ensures connection == Some(Connection(true)) && isConnected
      ensures Valid()
    {
      connection := Some(Connection(true));
      isConnected := true;
    }

    /** `query`: throws when not connected; otherwise the mock returns no rows. */
    method Query(sql: string, params: seq<string>) returns (r: Result<seq<Row>>)
      ensures !isConnected ==> r == Err(NotConnectedMessage)
      ensures isConnected ==> r == Ok([])
    {
      if !isConnected {
        return Err(NotConnectedMessage);
      }
      r := Ok([]);
    }

    /** `queryOne`: the first row of `query`, or null when it has none; `query`'s error propagates. */
    method QueryOne(sql: string, params: seq<string>) returns (r: Result<Option<Row>>)
      ensures !isConnected ==> r == Err(NotConnectedMessage)
      ensures isConnected ==> r == Ok(None)
    {
      var rows := Query(sql, params);
      if rows.Err? {
        return Err(rows.error);
      }
      r := Ok(FirstRow(rows.value));
    }

    /**
     * `withTransaction(fn)`: throws without calling `fn` when not connected;
     * otherwise calls `fn` once and returns its result, or rethrows its error
     * unchanged. `fnOutcome` is what the call of `fn` settles to.
     */
    method WithTransaction<T>(fnOutcome: Result<T>) returns (r: Result<T>, called: bool)
      ensures !isConnected ==> r == Err(NotConnectedMessage) && !called
      ensures isConnected ==> r == fnOutcome && called
    {
      if !isConnected {
        return Err(NotConnectedMessage), false;
      }
      called := true;
      r := fnOutcome;
    }

    /** `disconnect`: a connected instance drops its connection; any other is left as it is. */
    method Disconnect()
      modifies this
      ensures old(isConnected && connection.Some?) ==> !isConnected && connection == None
      ensures !old(isConnected && connection.Some?) ==> isConnected == old(isConnected) && connection == old(connection)
      ensures old(Valid()) ==> Valid()
    {
      if isConnected && connection.Some? {
        isConnected := false;
        connection := None;
      }
    }
  }

  /**
   * The guard in action: after `connect`, a query succeeds; after
   * `disconnect`, it throws again.
   */
  method ConnectQueryDisconnect(db: DatabaseUtils, sql: string) returns (before: Result<seq<Row>>, during: Result<seq<Row>>, after: Result<seq<Row>>)
    modifies db
    ensures !old(db.isConnected) ==> before == Err(NotConnectedMessage)
    ensures during == Ok([])
    ensures after == Err(NotConnectedMessage)
    ensures !db.isConnected && db.connection == None && db.Valid()
  {
    before := db.Query(sql, []);
    db.Connect();
    during := db.Query(sql, []);
    db.Disconnect();
    after := db.Query(sql, []);
  }
}
