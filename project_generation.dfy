/** The project generation configuration: a builder whose methods insert
    into the dependency maps, append to the command and recommendation
    lists and overwrite the build scripts, each leaving every other field as
    it was. */
module Generation {
  import opened Generator

  datatype ProjectType =
    | WebApplication
    | CommandLineInterface
    | Library
    | MicroService
    | DesktopApplication
    | MobileApplication

  /** All fields of a configuration, as one value. */
  datatype ConfigView = ConfigView(
    projectName: string,
    language: string,
    framework: string,
    projectType: ProjectType,
    directoryStructure: map<string, seq<string>>,
    dependencies: DependencyConfig,
    buildConfig: BuildConfig,
    initializationCommands: seq<string>,
    recommendations: seq<string>)

  /** The configuration `new` builds: the four given fields, every map and
      list empty, every build string empty. */
  function Fresh(projectName: string, language: string, framework: string, projectType: ProjectType): (v: ConfigView)
    ensures v.projectName == projectName && v.language == language
    ensures v.framework == framework && v.projectType == projectType
    ensures |v.directoryStructure| == 0 && |v.dependencies.production| == 0 && |v.dependencies.development| == 0
    ensures v.buildConfig.buildTool == "" && v.buildConfig.scripts == BuildScripts("", "", "")
    ensures v.initializationCommands == [] && v.recommendations == []
  {
    ConfigView(projectName, language, framework, projectType, map[],
               DependencyConfig(map[], map[]), BuildConfig("", BuildScripts("", "", "")), [], [])
  }

  class ProjectGenerationConfig {
    var projectName: string
    var language: string
    var framework: string
    var projectType: ProjectType
    var directoryStructure: map<string, seq<string>>
    var dependencies: DependencyConfig
    var buildConfig: BuildConfig
    var initializationCommands: seq<string>
    var recommendations: seq<string>

    function View(): ConfigView
      reads this
    {
      ConfigView(projectName, language, framework, projectType, directoryStructure,
                 dependencies, buildConfig, initializationCommands, recommendations)
    }

    /** `new`. */
    constructor (projectName: string, language: string, framework: string, projectType: ProjectType)
      ensures View() == Fresh(projectName, language, framework, projectType)
    {
      this.projectName := projectName;
      this.language := language;
      this.framework := framework;
      this.projectType := projectType;
      directoryStructure := map[];
      dependencies := DependencyConfig(map[], map[]);
      buildConfig := BuildConfig("", BuildScripts("", "", ""));
      initializationCommands := [];
      recommendations := [];
    }

    /** `add_production_dependency`: sets (or overwrites) one production entry. */
    method AddProductionDependency(name: string, version: string)
      modifies this`dependencies
      ensures dependencies == old(dependencies).(production := old(dependencies.production)[name := version])
    {
      dependencies := dependencies.(production := dependencies.production[name := version]);
    }

    /** `add_development_dependency`: sets (or overwrites) one development entry. */
    method AddDevelopmentDependency(name: string, version: string)
      modifies this`dependencies
      ensures dependencies == old(dependencies).(development := old(dependencies.development)[name := version])
    {
      dependencies := dependencies.(development := dependencies.development[name := version]);
    }

    /** `set_build_scripts`: replaces the three scripts; the build tool stays. */
    method SetBuildScripts(dev: string, build: string, test: string)
      modifies this`buildConfig
      ensures buildConfig == old(buildConfig).(scripts := BuildScripts(dev, build, test))
    {
      buildConfig := buildConfig.(scripts := BuildScripts(dev, build, test));
    }

    /** `add_initialization_command`: appends at the end. */
    method AddInitializationCommand(command: string)
      modifies this`initializationCommands
      ensures initializationCommands == old(initializationCommands) + [command]
    {
      initializationCommands := initializationCommands + [command];
    }

    /** `add_recommendation`: appends at the end. */
    method AddRecommendation(recommendation: string)
      modifies this`recommendations
      ensures recommendations == old(recommendations) + [recommendation]
    {
      recommendations := recommendations + [recommendation];
    }

    /** `sample_web_project`: a Rust web service configured through the
        builder methods. */
    static method SampleWebProject() returns (config: ProjectGenerationConfig)
      ensures fresh(config)
      ensures config.projectName == "task-tracker" && config.language == "rust"
      ensures config.framework == "actix-web" && config.projectType == WebApplication
      ensures |config.dependencies.production| == 5 && |config.dependencies.development| == 3
      ensures "actix-web" in config.dependencies.production && config.dependencies.production["actix-web"] == "4.3.1"
      ensures "mockall" in config.dependencies.development && config.dependencies.development["mockall"] == "0.11.4"
      ensures |config.directoryStructure| == 3
      ensures "src" in config.directoryStructure && |config.directoryStructure["src"]| == 4
      ensures config.buildConfig == BuildConfig("cargo", BuildScripts("cargo watch -x run", "cargo build --release", "cargo test"))
      ensures |config.initializationCommands| == 3 && |config.recommendations| == 3
      ensures config.initializationCommands[0] == "cargo new task-tracker"
    {
      config := new ProjectGenerationConfig("task-tracker", "rust", "actix-web", WebApplication);
      config.SampleDependencies();
      config.SampleLayout();
      config.SampleSteps();
    }

    /** The sample's five production and three development dependencies. */
    method SampleDependencies()
      requires |dependencies.production| == 0 && |dependencies.development| == 0
      modifies this`dependencies
      ensures |dependencies.production| == 5 && |dependencies.development| == 3
      ensures "actix-web" in dependencies.production && dependencies.production["actix-web"] == "4.3.1"
      ensures "mockall" in dependencies.development && dependencies.development["mockall"] == "0.11.4"
    {
      SampleProduction();
      SampleDevelopment();
    }

    method SampleProduction()
      requires |dependencies.production| == 0
      modifies this`dependencies
      ensures |dependencies.production| == 5 && dependencies.development == old(dependencies.development)
      ensures "actix-web" in dependencies.production && dependencies.production["actix-web"] == "4.3.1"
    {
      AddProductionDependency("actix-web", "4.3.1");
      AddProductionDependency("serde", "1.0.193");
      assert |dependencies.production| == 2;
      AddProductionDependency("serde_json", "1.0.108");
      assert |dependencies.production| == 3;
      AddProductionDependency("sqlx", "0.7.3");
      assert |dependencies.production| == 4;
      AddProductionDependency("tokio", "1.35.1");
    }

    method SampleDevelopment()
      requires |dependencies.development| == 0
      modifies this`dependencies
      ensures |dependencies.development| == 3 && dependencies.production == old(dependencies.production)
      ensures "mockall" in dependencies.development && dependencies.development["mockall"] == "0.11.4"
    {
      AddDevelopmentDependency("mockall", "0.11.4");
      AddDevelopmentDependency("cargo-watch", "8.5.2");
      assert |dependencies.development| == 2;
      AddDevelopmentDependency("clippy", "0.1.77");
    }

    /** The sample's three directories and its cargo build configuration. */
    method SampleLayout()
      modifies this`directoryStructure, this`buildConfig
      ensures |directoryStructure| == 3
      ensures "src" in directoryStructure && |directoryStructure["src"]| == 4
      ensures buildConfig == BuildConfig("cargo", BuildScripts("cargo watch -x run", "cargo build --release", "cargo test"))
    {
      var structure := map["src" := ["main.rs", "routes.rs", "models.rs", "db.rs"]];
      structure := structure["tests" := ["integration_tests.rs"]];
      assert |structure| == 2;
      structure := structure["migrations" := ["20240128_create_tasks_table.sql"]];
      assert |structure| == 3;
      directoryStructure := structure;

      buildConfig := buildConfig.(buildTool := "cargo");
      SetBuildScripts("cargo watch -x run", "cargo build --release", "cargo test");
    }

    /** The sample's three setup commands and three recommendations. */
    method SampleSteps()
      requires initializationCommands == [] && recommendations == []
      modifies this`initializationCommands, this`recommendations
      ensures |initializationCommands| == 3 && |recommendations| == 3
      ensures initializationCommands[0] == "cargo new task-tracker"
    {
      AddInitializationCommand("cargo new task-tracker");
      AddInitializationCommand("cd task-tracker");
      AddInitializationCommand("cargo add actix-web serde sqlx");

      AddRecommendation("Use environment variables for configuration");
      AddRecommendation("Implement proper error handling");
      AddRecommendation("Set up database migrations");
    }
  }
}
