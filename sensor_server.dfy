/**
 * The EC2 sensor server (ec2-server/environmental_sensor/app.py): a single cell
 * holding the last posted document, read back with Python's truth test.
 */
module SensorServer {
  import opened Json
  import CaptureApi

  datatype Body =
    | NoBody                        // ''
    | Document(data: Json)          // jsonify(latest_data)
    | ErrorMessage(error: string)   // {'error': ...}
    | BadRequest                    // Flask's answer when get_json() cannot decode the body

  datatype Response = Response(status: int, body: Body)

  class SensorStore {
    /** `latest_data`, initially the empty dict. */
    var latestData: Json

    constructor ()
      ensures latestData == JObj(map[])
    {
      latestData := JObj(map[]);
    }

    /**
     * POST /sensor: the decoded body replaces the cell, last write wins, and the answer
     * is an empty 200. `request.get_json()` is not silent, so a body that does not
     * decode is answered 400 before the cell is touched.
     */
    method ReceiveSensorData(body: RequestBody) returns (resp: Response)
      modifies this
      ensures body.Parsed? ==> latestData == body.value && resp == Response(200, NoBody)
      ensures body.Unparsable? ==> latestData == old(latestData) && resp == Response(400, BadRequest)
    {
      if body.Unparsable? {
        return Response(400, BadRequest);
      }
      latestData := body.value;
      resp := Response(200, NoBody);
    }

    /** GET /sensor: the stored document exactly when it is truthy, 404 otherwise. */
    function GetLatestData(): (r: Response)
      reads this
      ensures r.status == 200 <==> Truthy(latestData)
      ensures r.status == 200 ==> r.body == Document(latestData)
      ensures r.status != 200 ==> r == Response(404, ErrorMessage("No data received yet"))
    {
      if Truthy(latestData) then Response(200, Document(latestData))
      else Response(404, ErrorMessage("No data received yet"))
    }
  }

  /**
   * The two sensor registers disagree on an empty document: the Pi tests `is None`
   * and serves `{}`, this server tests truthiness and answers 404.
   */
  lemma RegistersDisagreeOnEmptyDocument(pi: CaptureApi.PiServer, store: SensorStore)
    requires pi.latestSensorData == JObj(map[]) && store.latestData == JObj(map[])
    ensures pi.GetLatestSensor().status == 200
    ensures store.GetLatestData().status == 404
  {
  }
}
