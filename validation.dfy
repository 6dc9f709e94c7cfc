/**
 * The DCAT harvester's after_download hook (SwedenDCATRDFHarvester): unless
 * validation is switched off, the downloaded document is posted to the validation
 * service, and the service's answer decides which errors are reported and whether
 * the harvest goes on with the content.
 */
module DcatHarvester {
  import opened Common

  /** VALIDATION_SERVICE, the default of ckanext.sweden.harvest.validation_service. */
  const ValidationService: string := "https://sandbox.oppnadata.se/validator"

  /**
   * The configuration after_download reads: use_validation (default true), the
   * validation service url, and stop_on_validation_errors (default false).
   */
  datatype Config = Config(useValidation: bool, validationService: string, stopOnErrors: bool)

  const DefaultConfig: Config := Config(true, ValidationService, false)

  /**
   * The validator's JSON answer. An absent or falsy rdfError is None, absent or
   * falsy errors and warnings are false, an absent mandatoryError or resources list
   * is empty; each resource is held as the text json.dumps gives for it.
   */
  datatype Report = Report(rdfError: Option<string>, errors: bool, warnings: bool,
                           mandatoryError: seq<string>, resources: seq<string>)

  /** What requests.post gives: a RequestException, or a response with a status and a body. */
  datatype PostResult = RequestFailed(reason: string) | Responded(status: int, report: Report)

  /** One POST request: the url and the data sent. */
  datatype Post = Post(url: string, data: string)

  /** What after_download returns: the content to harvest (None: stop) and the errors. */
  datatype Download = Download(content: Option<string>, errors: seq<string>)

  function ContactError(reason: string): string {
    "Error contacting the validation service: " + reason
  }

  function StatusError(status: int): string {
    "The validation service returned an error: " + IntToString(status)
  }

  function MandatoryMessage(className: string): string {
    "Mandatory class " + className + " missing"
  }

  /** The answer carries one of the three flags that stop the all-clear. */
  predicate Flagged(r: Report) {
    r.rdfError.Some? || r.errors || r.warnings
  }

  /** The content passed on: the document itself unless errors stop the harvest. */
  function Passed(config: Config, content: string): Option<string> {
    if config.stopOnErrors then None else Some(content)
  }

  /**
   * after_download(content, harvest_job): `post` answers requests.post. The POST
   * requests made are returned alongside the result.
   */
  method AfterDownload(config: Config, content: string, post: (string, string) -> PostResult)
    returns (d: Download, posted: seq<Post>)
    ensures !config.useValidation ==> d == Download(Some(content), []) && posted == []
    ensures config.useValidation ==> posted == [Post(config.validationService, content)]
    ensures config.useValidation ==>
              match post(config.validationService, content)
              case RequestFailed(reason) =>
                d == Download(Passed(config, content), [ContactError(reason)])
              case Responded(status, r) =>
                if status != 200 then d == Download(Passed(config, content), [StatusError(status)])
                else if !Flagged(r) then d == Download(Some(content), [])
                else
                  && d.content == Passed(config, content)
                  && (r.rdfError.Some? ==> d.errors == [r.rdfError.value])
                  && (r.rdfError.None? ==>
                        && |d.errors| == |r.mandatoryError| + |r.resources|
                        && (forall i :: 0 <= i < |r.mandatoryError| ==>
                              d.errors[i] == MandatoryMessage(r.mandatoryError[i]))
                        && (forall j :: 0 <= j < |r.resources| ==>
                              d.errors[|r.mandatoryError| + j] == r.resources[j]))
  {
    if !config.useValidation {
      return Download(Some(content), []), [];
    }
    var errors: seq<string> := [];
    posted := [Post(config.validationService, content)];
    var response := post(config.validationService, content);
    if response.RequestFailed? {
      errors := errors + [ContactError(response.reason)];
      if config.stopOnErrors {
        return Download(None, errors), posted;
      } else {
        return Download(Some(content), errors), posted;
      }
    }
    if response.status != 200 {
      errors := errors + [StatusError(response.status)];
      if config.stopOnErrors {
        return Download(None, errors), posted;
      } else {
        return Download(Some(content), errors), posted;
      }
    }
    var r := response.report;
    if !(r.rdfError.Some? || r.errors || r.warnings) {
      return Download(Some(content), []), posted;
    }
    if r.rdfError.Some? {
      errors := errors + [r.rdfError.value];
    } else {
      if |r.mandatoryError| > 0 {
        var i := 0;
        while i < |r.mandatoryError|
          invariant 0 <= i <= |r.mandatoryError|
          invariant |errors| == i
          invariant forall k :: 0 <= k < i ==> errors[k] == MandatoryMessage(r.mandatoryError[k])
        {
          errors := errors + [MandatoryMessage(r.mandatoryError[i])];
          i := i + 1;
        }
      }
      var j := 0;
      while j < |r.resources|
        invariant 0 <= j <= |r.resources|
        invariant |errors| == |r.mandatoryError| + j
        invariant forall k :: 0 <= k < |r.mandatoryError| ==> errors[k] == MandatoryMessage(r.mandatoryError[k])
        invariant forall k :: 0 <= k < j ==> errors[|r.mandatoryError| + k] == r.resources[k]
      {
        errors := errors + [r.resources[j]];
        j := j + 1;
      }
    }
    if config.stopOnErrors {
      d := Download(None, errors);
    } else {
      d := Download(Some(content), errors);
    }
  }
}
