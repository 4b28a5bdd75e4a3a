/** The style-compilation engine (jss) as the registry sees it: an abstract
    renderer whose every call is recorded in a ghost log. How rules become
    class names and CSS text is left abstract, as two functions fixed when the
    renderer is made. */
module Jss {
  import opened Js

  /** A rules object: rule name to declarations. */
  type Rules = map<string, map<string, string>>

  /** Rule name to generated class name. */
  type ClassMap = map<string, string>

  /** One call into the renderer. */
  datatype Call =
    | CreateCall(sheet: JssSheet)
    | AttachCall(sheet: JssSheet)
    | DetachCall(sheet: JssSheet)
    | RemoveCall(sheet: JssSheet)
    | ToStringCall(sheet: JssSheet)

  class Renderer {
    /** Every call made into this renderer and its sheets, oldest first. */
    ghost var log: seq<Call>

    /** The class map a sheet's `attach()` yields. */
    const classNames: (Rules, Options) -> ClassMap

    /** The CSS text a sheet's `toString()` yields. */
    const cssText: (Rules, Options) -> string

    constructor (classNames: (Rules, Options) -> ClassMap, cssText: (Rules, Options) -> string)
      ensures this.classNames == classNames && this.cssText == cssText
      ensures log == []
    {
      this.classNames := classNames;
      this.cssText := cssText;
      log := [];
    }

    /** `jss.createStyleSheet(rules, options)`. */
    method CreateStyleSheet(rules: Rules, options: Options) returns (sheet: JssSheet)
      modifies this
      ensures fresh(sheet)
      ensures sheet.renderer == this && sheet.rules == rules && sheet.options == options
      ensures log == old(log) + [CreateCall(sheet)]
    {
      sheet := new JssSheet(this, rules, options);
      log := log + [CreateCall(sheet)];
    }

    /** `jss.removeStyleSheet(sheet)`. */
    method RemoveStyleSheet(sheet: JssSheet)
      modifies this
      ensures log == old(log) + [RemoveCall(sheet)]
    {
      log := log + [RemoveCall(sheet)];
    }
  }

  /** A compiled sheet; its rules and resolved options never change. */
  class JssSheet {
    const renderer: Renderer
    const rules: Rules
    const options: Options

    constructor (renderer: Renderer, rules: Rules, options: Options)
      ensures this.renderer == renderer && this.rules == rules && this.options == options
    {
      this.renderer := renderer;
      this.rules := rules;
      this.options := options;
    }

    /** `sheet.attach()`, answering its `classes`. */
    method Attach() returns (classes: ClassMap)
      modifies renderer
      ensures classes == renderer.classNames(rules, options)
      ensures renderer.log == old(renderer.log) + [AttachCall(this)]
    {
      classes := renderer.classNames(rules, options);
      renderer.log := renderer.log + [AttachCall(this)];
    }

    /** `sheet.detach()`. */
    method Detach()
      modifies renderer
      ensures renderer.log == old(renderer.log) + [DetachCall(this)]
    {
      renderer.log := renderer.log + [DetachCall(this)];
    }

    /** `sheet.toString()`. */
    method ToText() returns (css: string)
      modifies renderer
      ensures css == renderer.cssText(rules, options)
      ensures renderer.log == old(renderer.log) + [ToStringCall(this)]
    {
      css := renderer.cssText(rules, options);
      renderer.log := renderer.log + [ToStringCall(this)];
    }
  }
}
