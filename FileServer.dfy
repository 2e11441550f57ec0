/**
 * The file backend: an HTTP handler pair over one JSON data file.  GET
 * returns the parsed file; POST checks the shared password, then the shape
 * of the body, then overwrites the whole file.
 */
module FileServer {
  import opened Wrappers
  import opened JobSources
  import Json

  /** `process.env.ADMIN_PASSWORD || 'afeka'`: an unset or empty variable falls back to the default. */
  function AdminPassword(env: Option<string>): (p: string)
    ensures env.Some? && env.value != "" ==> p == env.value
    ensures env.None? || env.value == "" ==> p == "afeka"
  {
    if env.Some? && env.value != "" then env.value else "afeka"
  }

  /** The `sources` field of a POST body: an array, or anything else. */
  datatype Payload = ArrayOf(sources: seq<JobSource>) | NotAnArray

  datatype Body = Sources(list: seq<JobSource>) | Success | Error(message: string)

  datatype Response = Response(status: int, body: Body)

  class Server {
    const adminPassword: string
    /** The contents of `data/job-sources.json`; None when the file cannot be read. */
    var file: Option<string>

    /**
     * The file holds the model's spelling of some source list: what startup
     * creates and what every accepted POST writes.
     */
    ghost predicate Valid()
      reads this
    {
      file.Some? && exists xs :: file.value == Json.Encode(xs)
    }

    /** Startup: a missing data file is created holding `[]`; an existing one is kept. */
    constructor (env: Option<string>, existing: Option<string>)
      ensures adminPassword == AdminPassword(env)
      ensures file == if existing.None? then Some("[]") else existing
      ensures existing.None? ==> Valid()
    {
      adminPassword := AdminPassword(env);
      if existing.None? {
        assert "[]" == Json.Encode([]);
        file := Some("[]");
      } else {
        file := existing;
      }
    }

    /** `GET /api/job-sources`: the parsed file, or 500 when it cannot be read or parsed. */
    method Get() returns (resp: Response)
      ensures file.Some? && Json.Decode(file.value).Some? ==>
        resp == Response(200, Sources(Json.Decode(file.value).value))
      ensures file.None? || Json.Decode(file.value).None? ==>
        resp == Response(500, Error("Failed to read job sources."))
      ensures Valid() ==> resp.status == 200
    {
      if Valid() {
        ghost var xs :| file.value == Json.Encode(xs);
        Json.DecodeEncode(xs);
      }
      if file.None? {
        return Response(500, Error("Failed to read job sources."));
      }
      var data := file.value;
      var parsed := Json.Decode(data);
      if parsed.None? {
        return Response(500, Error("Failed to read job sources."));
      }
      resp := Response(200, Sources(parsed.value));
    }

    /**
     * `POST /api/job-sources`: 401 unless the password matches, then 400
     * unless `sources` is an array, then the file is overwritten; `writeOk`
     * is whether the write succeeds.  Every rejection leaves the file as it was.
     */
    method Post(password: Option<string>, sources: Payload, writeOk: bool) returns (resp: Response)
      modifies this`file
      ensures password != Some(adminPassword) ==>
        resp == Response(401, Error("Unauthorized")) && file == old(file)
      ensures password == Some(adminPassword) && sources.NotAnArray? ==>
        resp == Response(400, Error("Invalid sources format")) && file == old(file)
      ensures password == Some(adminPassword) && sources.ArrayOf? && !writeOk ==>
        resp == Response(500, Error("Failed to save job sources.")) && file == old(file)
      ensures password == Some(adminPassword) && sources.ArrayOf? && writeOk ==>
        resp == Response(200, Success) && file == Some(Json.Encode(sources.sources))
      ensures old(Valid()) ==> Valid()
    {
      if password != Some(adminPassword) {
        return Response(401, Error("Unauthorized"));
      }
      if sources.NotAnArray? {
        return Response(400, Error("Invalid sources format"));
      }
      if !writeOk {
        return Response(500, Error("Failed to save job sources."));
      }
      file := Some(Json.Encode(sources.sources));
      assert file.value == Json.Encode(sources.sources);
      resp := Response(200, Success);
    }
  }

  /** Without the environment variable the password is the built-in one. */
  lemma DefaultPassword()
    ensures AdminPassword(None) == "afeka"
  {
  }

  /** A successful POST followed by a GET returns exactly the posted list. */
  method PostThenGet(server: Server, xs: seq<JobSource>) returns (posted: Response, got: Response)
    modifies server
    ensures posted == Response(200, Success)
    ensures got == Response(200, Sources(xs))
  {
    posted := server.Post(Some(server.adminPassword), ArrayOf(xs), true);
    Json.DecodeEncode(xs);
    got := server.Get();
  }

  /** A server that started on a file it created itself answers every GET with 200, however many POSTs come in between. */
  method NeverFailsToRead(env: Option<string>, posts: seq<(Option<string>, Payload, bool)>) returns (got: Response)
    ensures got.status == 200
  {
    var server := new Server(env, None);
    var k := 0;
    while k < |posts|
      invariant 0 <= k <= |posts|
      invariant server.Valid()
    {
      var (password, sources, writeOk) := posts[k];
      var _ := server.Post(password, sources, writeOk);
      k := k + 1;
    }
    got := server.Get();
  }

  /** On a fresh install, the first GET returns the empty list. */
  method FirstGet(env: Option<string>) returns (got: Response)
    ensures got == Response(200, Sources([]))
  {
    var server := new Server(env, None);
    Json.EmptyArrayText();
    got := server.Get();
  }

  /** The password is checked before the shape: a wrong password with a non-array body is 401, not 400. */
  method WrongPasswordFirst(server: Server, wrong: string) returns (resp: Response)
    requires wrong != server.adminPassword
    modifies server
    ensures resp.status == 401
    ensures server.file == old(server.file)
  {
    resp := server.Post(Some(wrong), NotAnArray, true);
  }
}
