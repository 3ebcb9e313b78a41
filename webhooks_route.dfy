/**
 * POST /api/webhooks (src/app/api/webhooks/route.ts): registers a Discord
 * webhook url through a pooled connection that is released in `finally`.
 */
module WebhooksRoute {
  import opened Json
  import opened Store

  const MissingUrl := "URL이 필요합니다."
  const Saved := "저장되었습니다."
  const SaveFailed := "저장에 실패했습니다."

  /** One row of `webhooks`. */
  datatype Webhook = Webhook(url: Value, isActive: bool)

  datatype Response = Response(status: int, message: string)

  /** The `webhooks` table. */
  class WebhookTable {
    var rows: seq<Webhook>

    constructor ()
      ensures rows == []
    {
      rows := [];
    }

    /** `INSERT INTO webhooks (url, is_active) VALUES ($1, $2)`; `fails` is the database's verdict. */
    method Insert(url: Value, isActive: bool, fails: bool) returns (ok: bool)
      modifies this
      ensures ok == !fails
      ensures rows == old(rows) + (if ok then [Webhook(url, isActive)] else [])
    {
      ok := !fails;
      if ok {
        rows := rows + [Webhook(url, isActive)];
      }
    }
  }

  /**
   * POST with the parsed request `body`. A falsy `url` is refused before any
   * connection is taken; otherwise any url is stored, with no scheme check,
   * and the connection, once acquired, is released on every path.
   */
  method Post(pool: Pool, table: WebhookTable, body: Object, connectFails: bool, insertFails: bool)
    returns (response: Response)
    modifies pool, table
    ensures var url := Get(body, "url");
            && (!Truthy(url) ==> response == Response(400, MissingUrl))
            && (Truthy(url) && !connectFails && !insertFails ==> response == Response(200, Saved))
            && (Truthy(url) && (connectFails || insertFails) ==> response == Response(500, SaveFailed))
            && table.rows == old(table.rows) + (if response.status == 200 then [Webhook(url, true)] else [])
    ensures pool.inUse == old(pool.inUse)
  {
    var url := Get(body, "url");
    if !Truthy(url) {
      return Response(400, MissingUrl);
    }
    var client := false;
    var connected := pool.Connect(connectFails);
    if connected {
      client := true;
      var inserted := table.Insert(url, true, insertFails);
      response := if inserted then Response(200, Saved) else Response(500, SaveFailed);
    } else {
      response := Response(500, SaveFailed);
    }
    if client {
      pool.Release();
    }
  }
}
