/**
 * The upload of one document: `upload_big_file` sends the binary file in
 * chunks, following the link each accepted chunk's reply names, refreshing
 * the bearer token once on a 401, and finally writes the index fields with
 * one PUT; `upload_with_restapi` builds the payload and starts the upload
 * when the binary file exists.
 *
 * The document server is a set of oracles indexed by the number of requests
 * sent before: since every request depends only on earlier replies, this
 * covers every server behaviour.
 */
module Transfer {
  import opened Wrappers
  import opened XmlTree
  import Session
  import Payload
  import Extractor

  newtype byte = x: int | 0 <= x < 256

  /**
   * The reply to a chunk POST: the request raised, or it was answered with a
   * status and a body. `link` is the `href` attribute of the body's
   * `Document/FileChunk/s:Links/s:Link` element, None when the body does not
   * parse or has no such link; `docId` is the first `DWDOCID` integer text
   * of the body, None when there is none.
   */
  datatype PostReply =
    | PostRaised
    | Posted(code: int, text: string, link: Option<string>, docId: Option<string>)

  /** The reply to the indexing PUT: it raised, or it was answered. */
  datatype PutReply = PutRaised | PutAnswered(code: int, text: string)

  datatype Server = Server(
    post: nat -> PostReply,
    put: nat -> PutReply,
    /** What `ensure_token` consults when the request of that number was rejected with 401. */
    tokens: nat -> Session.TokenStore)

  /** The requests the server sees, with their `Authorization` header. */
  datatype Request =
    | Post(url: string, body: seq<byte>, authorization: string)
    | Put(url: string, fields: seq<Payload.Field>, authorization: string)

  /** `status_code` of a result: an HTTP status, "Error" or "File Not Found". */
  datatype Status = Code(n: int) | Error | FileNotFound

  /** The returned `{"status_code", "text"}`, or an exception that leaves the call. */
  datatype Outcome = Done(status: Status, text: string) | Raised

  /** What a call returned, with every request it sent. */
  datatype Run = Run(outcome: Outcome, log: seq<Request>)

  const RefreshFailedText: string := "Unauthorized and token refresh failed"
  const ExhaustedText: string := "Chunking completed without the last chunk"

  /** The inputs of `upload_big_file`: file content, chunk size, document URL, server base URL, index fields. */
  datatype Upload = Upload(content: seq<byte>, chunkSize: int, url: string, baseUrl: string, fields: seq<Payload.Field>)

  /**
   * `file.read(n)` at position `offset`: up to `n` bytes, or the rest of
   * the file for a negative `n`.
   */
  function Read(content: seq<byte>, offset: nat, n: int): (chunk: seq<byte>)
    requires offset <= |content|
    ensures offset + |chunk| <= |content| && chunk == content[offset..offset + |chunk|]
    ensures n >= 0 ==> |chunk| == if offset + n <= |content| then n else |content| - offset
    ensures n < 0 ==> |chunk| == |content| - offset
  {
    if n < 0 || offset + n > |content| then content[offset..] else content[offset..offset + n]
  }

  /** A chunk's POST, and its retry after a 401 when the token could be refreshed. */
  datatype Sent = Sent(reply: PostReply, token: Option<string>, log: seq<Request>) | RefreshFailed(log: seq<Request>)

  function SendChunk(s: Server, url: string, chunk: seq<byte>, token: Option<string>, log: seq<Request>): Sent {
    var first := s.post(|log|);
    var log1 := log + [Post(url, chunk, Session.BearerHeader(token))];
    if first.Posted? && first.code == 401 then
      var refreshed := Session.Ensure(s.tokens(|log|));
      if refreshed.None? then RefreshFailed(log1)
      else
        var token' := refreshed.value.accessToken;
        Sent(s.post(|log1|), token', log1 + [Post(url, chunk, Session.BearerHeader(token'))])
    else Sent(first, token, log1)
  }

  /**
   * A 200 reply without a link ends the upload: the index fields are PUT to
   * the document the reply names, and the PUT's answer is the result; with
   * no document id, or when the PUT raises, the chunk reply itself is.
   */
  function Finish(c: Upload, s: Server, reply: PostReply, token: Option<string>, log: seq<Request>): Run
    requires reply.Posted?
  {
    if reply.docId.None? then Run(Done(Code(reply.code), reply.text), log)
    else
      var put := s.put(|log|);
      var log' := log + [Put(c.url + "/" + reply.docId.value + "/Fields", c.fields, Session.BearerHeader(token))];
      match put
      case PutRaised => Run(Done(Code(reply.code), reply.text), log')
      case PutAnswered(code, text) => Run(Done(Code(code), text), log')
  }

  /** The chunk loop from file position `offset`, with `log` already sent. */
  function Transfer(c: Upload, s: Server, chunkUrl: string, offset: nat, token: Option<string>, log: seq<Request>): Run
    requires offset <= |c.content|
    decreases |c.content| - offset
  {
    var chunk := Read(c.content, offset, c.chunkSize);
    if chunk == [] then Run(Done(Error, ExhaustedText), log)
    else
      match SendChunk(s, chunkUrl, chunk, token, log)
      case RefreshFailed(log') => Run(Done(Code(401), RefreshFailedText), log')
      case Sent(reply, token', log') =>
        if reply.PostRaised? then Run(Raised, log')
        else if reply.code != 200 then Run(Done(Code(reply.code), reply.text), log')
        else if reply.link.Some? then Transfer(c, s, c.baseUrl + reply.link.value, offset + |chunk|, token', log')
        else Finish(c, s, reply, token', log')
  }

  /** `upload_big_file`: the chunk loop, updating URL, position, token and the requests sent. */
  method UploadBigFile(c: Upload, s: Server, token: Option<string>) returns (r: Run)
    ensures r == Transfer(c, s, c.url, 0, token, [])
  {
    var chunkUrl := c.url;
    var accessToken := token;
    var offset: nat := 0;
    var log: seq<Request> := [];
    var chunk := Read(c.content, offset, c.chunkSize);
    while chunk != []
      invariant offset <= |c.content|
      invariant chunk == Read(c.content, offset, c.chunkSize)
      invariant Transfer(c, s, c.url, 0, token, []) == Transfer(c, s, chunkUrl, offset, accessToken, log)
      decreases |c.content| - offset
    {
      ghost var sent := SendChunk(s, chunkUrl, chunk, accessToken, log);
      var reply := s.post(|log|);
      log := log + [Post(chunkUrl, chunk, Session.BearerHeader(accessToken))];
      if reply.Posted? && reply.code == 401 {
        var refreshed := Session.Ensure(s.tokens(|log| - 1));
        if refreshed.None? {
          return Run(Done(Code(401), RefreshFailedText), log);
        }
        accessToken := refreshed.value.accessToken;
        reply := s.post(|log|);
        log := log + [Post(chunkUrl, chunk, Session.BearerHeader(accessToken))];
      }
      assert sent == Sent(reply, accessToken, log);
      if reply.PostRaised? {
        return Run(Raised, log);
      }
      if reply.code != 200 {
        return Run(Done(Code(reply.code), reply.text), log);
      }
      if reply.link.None? {
        r := FinishUpload(c, s, reply, accessToken, log);
        return;
      }
      chunkUrl := c.baseUrl + reply.link.value;
      offset := offset + |chunk|;
      chunk := Read(c.content, offset, c.chunkSize);
    }
    return Run(Done(Error, ExhaustedText), log);
  }

  /** The `except` branch of a 200 reply without a link: the indexing PUT. */
  method FinishUpload(c: Upload, s: Server, reply: PostReply, token: Option<string>, log: seq<Request>) returns (r: Run)
    requires reply.Posted?
    ensures r == Finish(c, s, reply, token, log)
  {
    r := Run(Done(Code(reply.code), reply.text), log);
    if reply.docId.Some? {
      var put := s.put(|log|);
      var log' := log + [Put(c.url + "/" + reply.docId.value + "/Fields", c.fields, Session.BearerHeader(token))];
      match put {
        case PutRaised =>
          r := Run(Done(Code(reply.code), reply.text), log');
        case PutAnswered(code, text) =>
          r := Run(Done(Code(code), text), log');
      }
    }
  }

  // ---------------------------------------------------------------------------
  // Properties of the chunk loop
  // ---------------------------------------------------------------------------

  /**
   * A chunk is POSTed once, or twice when the first POST is rejected with
   * 401 and `ensure_token` yields a token: the retry goes to the same URL
   * with the same body and the new token, and there is never a second retry.
   */
  lemma SendChunkRetriesOnce(s: Server, url: string, chunk: seq<byte>, token: Option<string>, log: seq<Request>)
    ensures var sent := SendChunk(s, url, chunk, token, log);
            && |log| < |sent.log| <= |log| + 2
            && sent.log[..|log|] == log
            && sent.log[|log|] == Post(url, chunk, Session.BearerHeader(token))
            && (forall i :: |log| <= i < |sent.log| ==> sent.log[i].Post? && sent.log[i].url == url && sent.log[i].body == chunk)
            && (|sent.log| == |log| + 2 <==>
                  s.post(|log|).Posted? && s.post(|log|).code == 401 && Session.Ensure(s.tokens(|log|)).Some?)
            && (sent.RefreshFailed? <==>
                  s.post(|log|).Posted? && s.post(|log|).code == 401 && Session.Ensure(s.tokens(|log|)).None?)
            && (|sent.log| == |log| + 2 ==>
                  sent == Sent(s.post(|log| + 1), Session.Ensure(s.tokens(|log|)).value.accessToken, sent.log)
                  && sent.log[|log| + 1].authorization
                     == Session.BearerHeader(Session.Ensure(s.tokens(|log|)).value.accessToken))
            && (|sent.log| == |log| + 1 && sent.Sent? ==> sent.reply == s.post(|log|) && sent.token == token)
  {
  }

  /** Every request after those already sent is a POST except possibly the last, which is the indexing PUT. */
  predicate PutOnlyLast(c: Upload, log: seq<Request>, r: Run) {
    && |log| <= |r.log| && r.log[..|log|] == log
    && (forall i :: |log| <= i < |r.log| && r.log[i].Put? ==>
          && i == |r.log| - 1
          && r.outcome.Done? && r.outcome.status.Code?
          && r.log[i].fields == c.fields
          && |c.url| + 1 <= |r.log[i].url|
          && r.log[i].url[..|c.url| + 1] == c.url + "/")
  }

  /** Chunk POSTs sent before a run that keeps its PUT last keep it last. */
  lemma PostsThenPutOnlyLast(c: Upload, log: seq<Request>, mid: seq<Request>, r: Run)
    requires |log| <= |mid| && mid[..|log|] == log
    requires forall i :: |log| <= i < |mid| ==> mid[i].Post?
    requires PutOnlyLast(c, mid, r)
    ensures PutOnlyLast(c, log, r)
  {
    assert r.log[..|log|] == r.log[..|mid|][..|log|];
  }

  lemma FinishPutsOnce(c: Upload, s: Server, reply: PostReply, token: Option<string>, log: seq<Request>)
    requires reply.Posted?
    ensures PutOnlyLast(c, log, Finish(c, s, reply, token, log))
    ensures |Finish(c, s, reply, token, log).log| <= |log| + 1
  {
    if reply.docId.Some? {
      var u := c.url + "/" + reply.docId.value + "/Fields";
      assert u[..|c.url| + 1] == c.url + "/";
    }
  }

  /**
   * The upload sends only chunk POSTs, then at most one PUT, which is the
   * last request, writes the payload's fields below the document URL, and
   * only happens when the call returns normally.
   */
  lemma {:induction false} TransferPutsOnlyLast(c: Upload, s: Server, chunkUrl: string, offset: nat, token: Option<string>, log: seq<Request>)
    requires offset <= |c.content|
    ensures PutOnlyLast(c, log, Transfer(c, s, chunkUrl, offset, token, log))
    decreases |c.content| - offset
  {
    var chunk := Read(c.content, offset, c.chunkSize);
    if chunk != [] {
      var sent := SendChunk(s, chunkUrl, chunk, token, log);
      SendChunkRetriesOnce(s, chunkUrl, chunk, token, log);
      if sent.Sent? && sent.reply.Posted? && sent.reply.code == 200 {
        var r := Transfer(c, s, chunkUrl, offset, token, log);
        if sent.reply.link.Some? {
          TransferPutsOnlyLast(c, s, c.baseUrl + sent.reply.link.value, offset + |chunk|, sent.token, sent.log);
        } else {
          FinishPutsOnce(c, s, sent.reply, sent.token, sent.log);
        }
        PostsThenPutOnlyLast(c, log, sent.log, r);
      }
    }
  }

  /** How many non-empty reads the file gives from position `offset` on. */
  function ChunkCount(content: seq<byte>, offset: nat, n: int): nat
    requires offset <= |content|
    decreases |content| - offset
  {
    var chunk := Read(content, offset, n);
    if chunk == [] then 0 else 1 + ChunkCount(content, offset + |chunk|, n)
  }

  /**
   * A positive chunk size `n` splits the `rest` of the file into
   * `ceil(rest / n)` chunks, the `k` with `(k - 1) * n < rest <= k * n`; a
   * negative one reads it in one chunk; a zero chunk size reads nothing.
   */
  lemma {:induction false} ChunkCountValue(content: seq<byte>, offset: nat, n: int)
    requires offset <= |content|
    ensures n == 0 ==> ChunkCount(content, offset, n) == 0
    ensures n < 0 ==> ChunkCount(content, offset, n) == if offset < |content| then 1 else 0
    ensures n > 0 ==> var k := ChunkCount(content, offset, n);
                      (k - 1) * n < |content| - offset <= k * n
    decreases |content| - offset
  {
    var chunk := Read(content, offset, n);
    if chunk != [] {
      ChunkCountValue(content, offset + |chunk|, n);
      if n > 0 {
        var k' := ChunkCount(content, offset + |chunk|, n);
        assert (k' + 1) * n == k' * n + n;
      }
    }
  }

  /**
   * Each chunk costs at most two POSTs (the retry after a 401) and the
   * upload ends with at most one PUT.
   */
  lemma {:induction false} RequestBound(c: Upload, s: Server, chunkUrl: string, offset: nat, token: Option<string>, log: seq<Request>)
    requires offset <= |c.content|
    ensures |Transfer(c, s, chunkUrl, offset, token, log).log| <= |log| + 2 * ChunkCount(c.content, offset, c.chunkSize) + 1
    decreases |c.content| - offset
  {
    var chunk := Read(c.content, offset, c.chunkSize);
    if chunk != [] {
      var sent := SendChunk(s, chunkUrl, chunk, token, log);
      SendChunkRetriesOnce(s, chunkUrl, chunk, token, log);
      if sent.Sent? && sent.reply.Posted? && sent.reply.code == 200 {
        if sent.reply.link.Some? {
          RequestBound(c, s, c.baseUrl + sent.reply.link.value, offset + |chunk|, sent.token, sent.log);
        } else {
          FinishPutsOnce(c, s, sent.reply, sent.token, sent.log);
        }
      }
    }
  }

  /**
   * A chunk accepted with a link moves the upload on to the linked URL
   * (below the server's base URL) and past the chunk in the file; a chunk
   * answered with any status other than 200 (after the one retry) ends the
   * upload with that status and text, with no further request. A refresh
   * that fails after a 401 ends it with 401 and its fixed text; a POST that
   * raises lets the exception out of the upload.
   */
  lemma ChunkReplyDecides(c: Upload, s: Server, chunkUrl: string, offset: nat, token: Option<string>, log: seq<Request>)
    requires offset <= |c.content|
    requires Read(c.content, offset, c.chunkSize) != []
    ensures var chunk := Read(c.content, offset, c.chunkSize);
            var sent := SendChunk(s, chunkUrl, chunk, token, log);
            && (sent.RefreshFailed? ==>
                  Transfer(c, s, chunkUrl, offset, token, log) == Run(Done(Code(401), RefreshFailedText), sent.log))
            && (sent.Sent? && sent.reply.PostRaised? ==>
                  Transfer(c, s, chunkUrl, offset, token, log) == Run(Raised, sent.log))
            && (sent.Sent? && sent.reply.Posted? && sent.reply.code == 200 && sent.reply.link.Some? ==>
                  Transfer(c, s, chunkUrl, offset, token, log)
                  == Transfer(c, s, c.baseUrl + sent.reply.link.value, offset + |chunk|, sent.token, sent.log))
            && (sent.Sent? && sent.reply.Posted? && sent.reply.code != 200 ==>
                  Transfer(c, s, chunkUrl, offset, token, log) == Run(Done(Code(sent.reply.code), sent.reply.text), sent.log))
  {
  }

  /**
   * A chunk accepted without a link is the terminal one: the index fields
   * go to `<url>/<doc id>/Fields` in one PUT whose status and text are the
   * result; without a document id, or when the PUT raises, the result is
   * the terminal chunk's own status and text.
   */
  lemma TerminalChunkIndexes(c: Upload, s: Server, chunkUrl: string, offset: nat, token: Option<string>, log: seq<Request>)
    requires offset <= |c.content|
    requires Read(c.content, offset, c.chunkSize) != []
    requires SendChunk(s, chunkUrl, Read(c.content, offset, c.chunkSize), token, log).Sent?
    requires var sent := SendChunk(s, chunkUrl, Read(c.content, offset, c.chunkSize), token, log);
             sent.reply.Posted? && sent.reply.code == 200 && sent.reply.link.None?
    ensures var sent := SendChunk(s, chunkUrl, Read(c.content, offset, c.chunkSize), token, log);
            var r := Transfer(c, s, chunkUrl, offset, token, log);
            var put := s.put(|sent.log|);
            && (sent.reply.docId.None? ==> r == Run(Done(Code(200), sent.reply.text), sent.log))
            && (sent.reply.docId.Some? ==>
                  && r.log == sent.log + [Put(c.url + "/" + sent.reply.docId.value + "/Fields", c.fields,
                                              Session.BearerHeader(sent.token))]
                  && (put.PutAnswered? ==> r.outcome == Done(Code(put.code), put.text))
                  && (put.PutRaised? ==> r.outcome == Done(Code(200), sent.reply.text)))
  {
  }

  /** A file that is read to its end without the terminal reply ends in "Error", with no request. */
  lemma ExhaustedEndsInError(c: Upload, s: Server, chunkUrl: string, token: Option<string>, log: seq<Request>)
    ensures Transfer(c, s, chunkUrl, |c.content|, token, log) == Run(Done(Error, ExhaustedText), log)
    ensures c.chunkSize == 0 ==> Transfer(c, s, chunkUrl, 0, token, log) == Run(Done(Error, ExhaustedText), log)
  {
  }

  // ---------------------------------------------------------------------------
  // upload_with_restapi
  // ---------------------------------------------------------------------------

  /** Path separators of Windows paths. */
  predicate IsSep(ch: char) {
    ch == '\\' || ch == '/'
  }

  /**
   * `os.path.join(dir, name)` on Windows for a relative `name`: a backslash
   * goes between them unless `dir` is empty, ends in a separator, or is a
   * bare drive such as `C:`.
   */
  function Join(dir: string, name: string): (p: string)
    ensures |p| >= |dir| + |name| && p[..|dir|] == dir && p[|p| - |name|..] == name
  {
    if dir == [] || IsSep(dir[|dir| - 1]) || (|dir| == 2 && dir[1] == ':') then dir + name
    else dir + "\\" + name
  }

  /** The settings `upload_with_restapi` is called with, and the files present. */
  datatype Env = Env(baseUrl: string, xmlPath: string, url: string, chunkSize: int, files: map<string, seq<byte>>)

  const NotFoundText: string := "File not found at path: "

  /**
   * `upload_with_restapi`: joining a `FileName` that is not a string, or
   * building the payload, raises; a missing binary file is reported
   * without any request; otherwise the file is uploaded with the payload.
   */
  function UploadSpec(e: Env, s: Server, d: Extractor.Record, token: Option<string>): Run {
    if !d.fileName.Text? then Run(Raised, [])
    else
      var path := Join(e.xmlPath, d.fileName.s);
      match Payload.PayloadSpec(d)
      case None => Run(Raised, [])
      case Some(fields) =>
        if path !in e.files then Run(Done(FileNotFound, NotFoundText + path), [])
        else Transfer(Upload(e.files[path], e.chunkSize, e.url, e.baseUrl, fields), s, e.url, 0, token, [])
  }

  method UploadWithRestapi(e: Env, s: Server, d: Extractor.Record, token: Option<string>) returns (r: Run)
    ensures r == UploadSpec(e, s, d, token)
  {
    if !d.fileName.Text? {
      return Run(Raised, []);
    }
    var path := Join(e.xmlPath, d.fileName.s);
    var fields := Payload.BuildDocumentData(d);
    if fields.None? {
      return Run(Raised, []);
    }
    if path !in e.files {
      return Run(Done(FileNotFound, NotFoundText + path), []);
    }
    r := UploadBigFile(Upload(e.files[path], e.chunkSize, e.url, e.baseUrl, fields.value), s, token);
  }

  /**
   * No request is sent unless the payload builds and the binary file exists;
   * a missing file is reported as "File Not Found" with its joined path, and
   * a failed conversion or a non-string file name raises.
   */
  lemma NothingSentWithoutFile(e: Env, s: Server, d: Extractor.Record, token: Option<string>)
    ensures var r := UploadSpec(e, s, d, token);
            && (r.log != [] ==> d.fileName.Text? && !Payload.Raises(d) && Join(e.xmlPath, d.fileName.s) in e.files)
            && (r.outcome.Done? && r.outcome.status == FileNotFound <==>
                  d.fileName.Text? && !Payload.Raises(d) && Join(e.xmlPath, d.fileName.s) !in e.files)
            && (r.outcome.Done? && r.outcome.status == FileNotFound ==>
                  r.outcome.text == NotFoundText + Join(e.xmlPath, d.fileName.s) && r.log == [])
            && (!d.fileName.Text? || Payload.Raises(d) ==> r == Run(Raised, []))
  {
    if d.fileName.Text? && !Payload.Raises(d) {
      var path := Join(e.xmlPath, d.fileName.s);
      if path in e.files {
        var c := Upload(e.files[path], e.chunkSize, e.url, e.baseUrl, Payload.PayloadSpec(d).value);
        TransferNeverNotFound(c, s, e.url, 0, token, []);
      }
    }
  }

  lemma {:induction false} TransferNeverNotFound(c: Upload, s: Server, chunkUrl: string, offset: nat, token: Option<string>, log: seq<Request>)
    requires offset <= |c.content|
    ensures var r := Transfer(c, s, chunkUrl, offset, token, log);
            !(r.outcome.Done? && r.outcome.status == FileNotFound)
    decreases |c.content| - offset
  {
    var chunk := Read(c.content, offset, c.chunkSize);
    if chunk != [] {
      var sent := SendChunk(s, chunkUrl, chunk, token, log);
      if sent.Sent? && sent.reply.Posted? && sent.reply.code == 200 && sent.reply.link.Some? {
        TransferNeverNotFound(c, s, c.baseUrl + sent.reply.link.value, offset + |chunk|, sent.token, sent.log);
      }
    }
  }

  /** The indexing PUT, when sent, carries exactly the payload built from the record, and comes last. */
  lemma IndexingSendsPayload(e: Env, s: Server, d: Extractor.Record, token: Option<string>)
    ensures var r := UploadSpec(e, s, d, token);
            forall i :: 0 <= i < |r.log| && r.log[i].Put? ==>
              && i == |r.log| - 1
              && r.log[i].fields == Payload.PayloadSpec(d).value
              && |e.url| + 1 <= |r.log[i].url| && r.log[i].url[..|e.url| + 1] == e.url + "/"
  {
    if d.fileName.Text? && !Payload.Raises(d) {
      var path := Join(e.xmlPath, d.fileName.s);
      if path in e.files {
        var c := Upload(e.files[path], e.chunkSize, e.url, e.baseUrl, Payload.PayloadSpec(d).value);
        TransferPutsOnlyLast(c, s, e.url, 0, token, []);
      }
    }
  }
}
