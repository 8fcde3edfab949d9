/** The text-field rule both creation handlers share: a validator chain
    `body("text").trim().escape().notEmpty().isLength({ min: 1, max })`
    followed by the middleware that answers 400 when the chain found errors. */
module Validation {
  import opened Domain

  const InvalidInput := "Invalid input - check each field for errors"
  const TextRequired := "Text required"

  /** The sanitizers run before the checks, so the length limit applies to
      the trimmed and escaped text. */
  function Sanitize(env: Env, text: string): string
  {
    env.escape(env.trim(text))
  }

  /** On success the body carries the sanitized text, which is what the
      handler later reads through `matchedData`. On failure the response
      holds the first error of the `text` field: "Text required" for an
      empty text (both checks fail then), the length message otherwise. */
  function CheckText(env: Env, req: Request, max: nat, tooLong: string): (o: Outcome)
    ensures var text := Sanitize(env, req.body.text);
            && (o.Next? <==> 0 < |text| <= max)
            && (o.Next? ==> o.req == req.(body := Body(text)))
            && (!o.Next? ==> o == Respond(Response(400, Invalid(InvalidInput,
                                   map["text" := if |text| == 0 then TextRequired else tooLong]))))
  {
    var text := Sanitize(env, req.body.text);
    if text == [] then Respond(Response(400, Invalid(InvalidInput, map["text" := TextRequired])))
    else if |text| > max then Respond(Response(400, Invalid(InvalidInput, map["text" := tooLong])))
    else Next(req.(body := Body(text)))
  }
}
